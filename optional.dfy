/** Values that may be absent (`null` or `undefined`), and the JavaScript
    truthiness tests the application applies to them. */
module Optional {

  datatype Option<T> = None | Some(value: T)

  /** A string value is truthy when it is present and not empty. */
  predicate TruthyString(s: Option<string>) {
    s.Some? && s.value != ""
  }

  /** A number is truthy when it is present and not zero. */
  predicate TruthyInt(n: Option<int>) {
    n.Some? && n.value != 0
  }

  /** `a || b` on strings. */
  function OrString(a: Option<string>, b: string): (r: string)
    ensures TruthyString(a) ==> r == a.value
    ensures !TruthyString(a) ==> r == b
  {
    if TruthyString(a) then a.value else b
  }
}
