/**
 * The job dictionary that the scraper returns and the formatter and webhook
 * consume: a `success` flag, an optional `message`, the string-valued fields
 * in insertion order, and an optional `components` sub-dictionary.
 */
module Records {
  import opened Wrappers
  import opened Dicts

  datatype JobData = JobData(success: bool, message: Option<string>, fields: Dict, components: Option<Dict>)

  /** `{"success": False, "message": message}`. */
  function Failure(message: string): JobData {
    JobData(false, Some(message), [], None)
  }

  /** An environment setting Python treats as set: present and non-empty. */
  predicate Configured(value: Option<string>) {
    value.Some? && value.value != ""
  }
}
