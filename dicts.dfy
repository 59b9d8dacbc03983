/**
 * Python `dict`s from strings to strings, as the bot builds them: a sequence of
 * entries in insertion order, each key at most once. Assigning to a key that is
 * already present replaces its value where it stands; a new key goes at the end.
 */
module Dicts {
  import opened Wrappers

  type Dict = seq<(string, string)>

  /** The keys, in insertion order (`list(d.keys())`). */
  function KeysOf(d: Dict): (ks: seq<string>)
    ensures |ks| == |d| && forall i :: 0 <= i < |d| ==> ks[i] == d[i].0
  {
    if d == [] then [] else [d[0].0] + KeysOf(d[1..])
  }

  /** Every key occurs once, as in a Python `dict`. */
  predicate NoDupKeys(d: Dict) {
    forall i, j :: 0 <= i < j < |d| ==> d[i].0 != d[j].0
  }

  /** `d.get(k)`. */
  function Get(d: Dict, k: string): (r: Option<string>)
    ensures r.None? <==> k !in KeysOf(d)
  {
    if d == [] then None
    else if d[0].0 == k then Some(d[0].1)
    else Get(d[1..], k)
  }

  /** A value found under `k` is stored in an entry of `d` under `k`. */
  lemma {:induction false} GetEntry(d: Dict, k: string)
    requires Get(d, k).Some?
    ensures (k, Get(d, k).value) in d
  {
    if d[0].0 != k {
      GetEntry(d[1..], k);
    }
  }

  /** With unique keys, the entry stored under `k` is the one `Get` finds. */
  lemma {:induction false} GetUnique(d: Dict, i: nat)
    requires NoDupKeys(d) && i < |d|
    ensures Get(d, d[i].0) == Some(d[i].1)
  {
    if i > 0 {
      GetUnique(d[1..], i - 1);
    }
  }

  /** `d[k] = v`. */
  function Put(d: Dict, k: string, v: string): (r: Dict)
    ensures KeysOf(r) == if k in KeysOf(d) then KeysOf(d) else KeysOf(d) + [k]
    ensures Get(r, k) == Some(v)
    ensures forall k' :: k' != k ==> Get(r, k') == Get(d, k')
  {
    if d == [] then [(k, v)]
    else if d[0].0 == k then [(k, v)] + d[1..]
    else
      var t := Put(d[1..], k, v);
      var r := [d[0]] + t;
      assert r[0] == d[0] && r[1..] == t;
      assert KeysOf(r) == [d[0].0] + KeysOf(t);
      assert KeysOf(d) == [d[0].0] + KeysOf(d[1..]);
      r
  }

  /** Assignment keeps every key unique. */
  lemma PutNoDupKeys(d: Dict, k: string, v: string)
    requires NoDupKeys(d)
    ensures NoDupKeys(Put(d, k, v))
  {
    var r := Put(d, k, v);
    var ks := KeysOf(r);
    if k in KeysOf(d) {
      assert ks == KeysOf(d);
    } else {
      assert ks == KeysOf(d) + [k];
    }
    forall i, j | 0 <= i < j < |r| ensures r[i].0 != r[j].0 {
      assert ks[i] == r[i].0 && ks[j] == r[j].0;
    }
  }

  /** Assignment changes only the entry for `k`: every entry afterwards was there before or is the new one. */
  lemma {:induction false} PutEntries(d: Dict, k: string, v: string)
    ensures forall e :: e in Put(d, k, v) ==> e in d || e == (k, v)
  {
    if d != [] {
      if d[0].0 == k {
        assert forall e :: e in d[1..] ==> e in d;
      } else {
        PutEntries(d[1..], k, v);
        assert forall e :: e in d[1..] ==> e in d;
      }
    }
  }

  /** A string-to-string update of a dictionary, or none. */
  type Update = Option<(string, string)>

  /** Update `i` of `u` assigns key `k`. */
  predicate Assigns(u: seq<Update>, i: int, k: string) {
    0 <= i < |u| && u[i].Some? && u[i].value.0 == k
  }

  /** The dictionary built by an empty `dict` and a loop that performs the updates in order. */
  function Assignments(u: seq<Update>): Dict
    decreases |u|
  {
    if u == [] then []
    else
      var d := Assignments(u[..|u| - 1]);
      match u[|u| - 1]
      case None => d
      case Some(kv) => Put(d, kv.0, kv.1)
  }

  /** The loop's dictionary keeps every key unique. */
  lemma {:induction false} AssignmentsNoDupKeys(u: seq<Update>)
    ensures NoDupKeys(Assignments(u))
    decreases |u|
  {
    if u != [] {
      var d := Assignments(u[..|u| - 1]);
      AssignmentsNoDupKeys(u[..|u| - 1]);
      if u[|u| - 1].Some? {
        PutNoDupKeys(d, u[|u| - 1].value.0, u[|u| - 1].value.1);
      }
    }
  }

  /** A key is absent exactly when no update assigns it; otherwise it holds the value of the last update that does. */
  lemma {:induction false} AssignmentsLastWins(u: seq<Update>, k: string)
    ensures Get(Assignments(u), k).None? <==> forall i :: !Assigns(u, i, k)
    ensures forall i :: Assigns(u, i, k) && (forall j :: i < j ==> !Assigns(u, j, k)) ==>
      Get(Assignments(u), k) == Some(u[i].value.1)
    decreases |u|
  {
    if u != [] {
      var n := |u| - 1;
      var init := u[..n];
      AssignmentsLastWins(init, k);
      assert forall i :: 0 <= i < n ==> u[i] == init[i];
      assert forall i :: Assigns(u, i, k) && i != n ==> Assigns(init, i, k);
      assert forall i :: Assigns(init, i, k) ==> Assigns(u, i, k);
      if Assigns(u, n, k) {
        forall i | Assigns(u, i, k) && (forall j :: i < j ==> !Assigns(u, j, k))
          ensures i == n
        {
          assert i < n ==> !Assigns(u, n, k);
        }
      } else {
        assert Get(Assignments(u), k) == Get(Assignments(init), k);
      }
    }
  }

  /** When every update writes the value `v`, every entry of the loop's dictionary holds `v`. */
  lemma {:induction false} AssignmentsUniform(u: seq<Update>, v: string)
    requires forall i :: 0 <= i < |u| && u[i].Some? ==> u[i].value.1 == v
    ensures forall e :: e in Assignments(u) ==> e.1 == v
    decreases |u|
  {
    if u != [] {
      var init := u[..|u| - 1];
      AssignmentsUniform(init, v);
      if u[|u| - 1].Some? {
        PutEntries(Assignments(init), u[|u| - 1].value.0, u[|u| - 1].value.1);
      }
    }
  }
}
