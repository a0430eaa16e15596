/** JSON scalars, optional fields and check outcomes shared by every module. */
module Values {

  datatype Option<+T> = None | Some(value: T)

  /** The outcome of a sequence of checks: it passes or names the first check that refused. */
  datatype Outcome<+E> = Pass | Fail(error: E)

  /** What an operation returns, or the reason it refused. */
  datatype Result<+T, +E> = Ok(value: T) | Refused(error: E)

  function Need<E>(condition: bool, error: E): Outcome<E> {
    if condition then Pass else Fail(error)
  }

  /** A JSON field read with `dict.get`: missing or null, a string, or another scalar.
      `tag` identifies the other scalar, `truthy` is its Python truth value. */
  datatype Value = Null | Text(text: string) | Other(tag: int, truthy: bool)

  predicate Truthy(v: Value) {
    match v
    case Null => false
    case Text(t) => t != ""
    case Other(_, truthy) => truthy
  }

  /** Python's `a or b`. */
  function Either(a: Value, b: Value): Value {
    if Truthy(a) then a else b
  }

  /** `isinstance(v, str) and v`. */
  predicate IsName(v: Value) {
    v.Text? && v.text != ""
  }

  /** An evidence reference: a string that starts with `ev-`. */
  predicate IsEvidenceRef(v: Value) {
    IsName(v) && "ev-" <= v.text
  }

  predicate OneOf(v: Value, names: set<string>) {
    v.Text? && v.text in names
  }

  function Elements<T>(s: seq<T>): set<T> {
    set x | x in s
  }

  /** White space, as `str.isspace` and the pattern `\s` understand it. */
  predicate IsSpace(c: char) {
    var n := c as int;
    || 9 <= n <= 13 || 28 <= n <= 32 || n == 0x85 || n == 0xA0 || n == 0x1680 || 0x2000 <= n <= 0x200A
    || n == 0x2028 || n == 0x2029 || n == 0x202F || n == 0x205F || n == 0x3000
  }

  /** `str.strip`. */
  function Strip(s: string): (r: string)
    ensures |r| <= |s|
    ensures r == "" <==> forall k | 0 <= k < |s| :: IsSpace(s[k])
  {
    if s == "" then ""
    else if IsSpace(s[0]) then Strip(s[1..])
    else if IsSpace(s[|s| - 1]) then Strip(s[..|s| - 1])
    else s
  }

  lemma SliceOfDrop(s: string, i: nat, j: nat)
    requires s != "" && i <= j <= |s| - 1
    ensures s[1..][i..j] == s[i + 1..j + 1]
  {
  }

  lemma SliceOfTake(s: string, i: nat, j: nat)
    requires s != "" && i <= j <= |s| - 1
    ensures s[..|s| - 1][i..j] == s[i..j]
  {
  }

  /** What is taken off at both ends is white space, and what is left neither starts nor ends with any. */
  lemma {:induction false} StripTrims(s: string) returns (i: nat, j: nat)
    ensures i <= j <= |s| && Strip(s) == s[i..j]
    ensures forall k | 0 <= k < i || j <= k < |s| :: IsSpace(s[k])
    ensures i < j ==> !IsSpace(s[i]) && !IsSpace(s[j - 1])
    decreases |s|
  {
    if s == "" {
      i, j := 0, 0;
    } else if IsSpace(s[0]) {
      var m, n := StripTrims(s[1..]);
      i, j := m + 1, n + 1;
      SliceOfDrop(s, m, n);
      assert forall k | 1 <= k < |s| :: s[k] == s[1..][k - 1];
    } else if IsSpace(s[|s| - 1]) {
      i, j := StripTrims(s[..|s| - 1]);
      SliceOfTake(s, i, j);
      assert forall k | 0 <= k < |s| - 1 :: s[k] == s[..|s| - 1][k];
    } else {
      i, j := 0, |s|;
      assert s[0..|s|] == s;
    }
  }
}
