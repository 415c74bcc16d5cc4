/** Small shared vocabulary: optional values (SQL NULL, an absent JSON field). */
module Common {

  /** A value that may be absent: `None` stands for JavaScript `undefined`/`null` and SQL NULL. */
  datatype Option<+T> = None | Some(value: T)

  /** JavaScript's `x || null` on an optional string: the empty string is falsy and becomes NULL. */
  function OrNull(s: Option<string>): (r: Option<string>)
    ensures r.Some? <==> s.Some? && s.value != ""
    ensures r.Some? ==> r.value == s.value
  {
    if s.Some? && s.value != "" then s else None
  }

  /** JavaScript truthiness of an optional string: present and non-empty. */
  predicate TruthyString(s: Option<string>)
  {
    s.Some? && s.value != ""
  }

  /** JavaScript truthiness of an optional number: present and non-zero. */
  predicate TruthyInt(n: Option<int>)
  {
    n.Some? && n.value != 0
  }
}
