/** The JavaScript values the dashboard script (static/js/script.js) works
    with: numbers with their NaN-aware comparisons, the cell values
    `XLSX.utils.sheet_to_json` puts into an uploaded row, and
    `String.prototype.trim`. */
module JsValues {

  /** A JavaScript number. Finite doubles are modelled by their exact value. */
  datatype JsNumber = NaN | Infinity(negative: bool) | Finite(value: real)

  /** `a < b` on numbers: false whenever either side is NaN. */
  predicate Less(a: JsNumber, b: JsNumber)
  {
    match (a, b)
    case (NaN, _) => false
    case (_, NaN) => false
    case (Infinity(na), Infinity(nb)) => na && !nb
    case (Infinity(na), Finite(_)) => na
    case (Finite(_), Infinity(nb)) => !nb
    case (Finite(x), Finite(y)) => x < y
  }

  /** `a <= b` on numbers: also false whenever either side is NaN. */
  predicate AtMost(a: JsNumber, b: JsNumber)
  {
    a != NaN && b != NaN && !Less(b, a)
  }

  /** The order on numbers: NaN is comparable to nothing, and the rest is a
      strict total order in which <= is < or equal. */
  lemma NumberOrder(a: JsNumber, b: JsNumber, c: JsNumber)
    ensures !Less(a, a)
    ensures Less(a, b) ==> !Less(b, a)
    ensures Less(a, b) && Less(b, c) ==> Less(a, c)
    ensures a != NaN && b != NaN ==> Less(a, b) || a == b || Less(b, a)
    ensures a == NaN || b == NaN ==> !Less(a, b) && !AtMost(a, b)
    ensures AtMost(a, b) <==> Less(a, b) || (a == b && a != NaN)
  {
  }

  /** A cell of a row produced by `sheet_to_json`: text, a number (carried
      by the text `String()` gives for it, so that two numbers are equal
      exactly when SameValueZero says so), a boolean, or nothing for a
      missing column. */
  datatype JsValue = Str(s: string) | Num(text: string) | Bool(b: bool) | Undefined

  /** `String(v)`, which is also what a template literal `${v}` inserts. */
  function ValueText(v: JsValue): (t: string)
    ensures v.Str? ==> t == v.s
  {
    match v
    case Str(s) => s
    case Num(text) => text
    case Bool(b) => if b then "true" else "false"
    case Undefined => "undefined"
  }

  /** The characters `trim` removes: WhiteSpace and LineTerminator of the
      ECMAScript grammar. */
  predicate IsJsSpace(c: char)
  {
    c == '\t' || c == '\n' || c == '\U{000B}' || c == '\U{000C}' || c == '\r' || c == ' '
    || c == '\U{00A0}' || c == '\U{1680}' || ('\U{2000}' <= c <= '\U{200A}')
    || c == '\U{2028}' || c == '\U{2029}' || c == '\U{202F}' || c == '\U{205F}'
    || c == '\U{3000}' || c == '\U{FEFF}'
  }

  /** s without its leading white space. */
  function TrimStart(s: string): (t: string)
    ensures |t| <= |s|
  {
    if s != [] && IsJsSpace(s[0]) then TrimStart(s[1..]) else s
  }

  /** s without its trailing white space. */
  function TrimEnd(s: string): (t: string)
    ensures |t| <= |s|
  {
    if s != [] && IsJsSpace(s[|s| - 1]) then TrimEnd(s[..|s| - 1]) else s
  }

  /** `s.trim()`. */
  function Trim(s: string): (t: string)
    ensures |t| <= |s|
    ensures t != [] ==> !IsJsSpace(t[0]) && !IsJsSpace(t[|t| - 1])
  {
    TrimStartShape(s);
    TrimEndShape(TrimStart(s));
    TrimEnd(TrimStart(s))
  }

  /** TrimStart drops exactly the leading run of white space: what is left
      is a suffix of s that does not start with white space. */
  lemma {:induction false} TrimStartShape(s: string)
    ensures TrimStart(s) == s[|s| - |TrimStart(s)|..]
    ensures forall i :: 0 <= i < |s| - |TrimStart(s)| ==> IsJsSpace(s[i])
    ensures TrimStart(s) != [] ==> !IsJsSpace(TrimStart(s)[0])
  {
    if s != [] && IsJsSpace(s[0]) {
      TrimStartShape(s[1..]);
    }
  }

  /** TrimEnd drops exactly the trailing run of white space: what is left
      is a prefix of s that does not end with white space. */
  lemma {:induction false} TrimEndShape(s: string)
    ensures TrimEnd(s) == s[..|TrimEnd(s)|]
    ensures forall i :: |TrimEnd(s)| <= i < |s| ==> IsJsSpace(s[i])
    ensures TrimEnd(s) != [] ==> !IsJsSpace(TrimEnd(s)[|TrimEnd(s)| - 1])
  {
    if s != [] && IsJsSpace(s[|s| - 1]) {
      TrimEndShape(s[..|s| - 1]);
    }
  }

  /** The trimmed text is the stretch of s between a run of leading and a
      run of trailing white space, and it neither starts nor ends with
      white space. */
  lemma TrimIsCore(s: string)
    ensures exists a, b ::
              (0 <= a <= b <= |s| && Trim(s) == s[a..b]
               && (forall i :: 0 <= i < a ==> IsJsSpace(s[i]))
               && (forall i :: b <= i < |s| ==> IsJsSpace(s[i])))
    ensures Trim(s) != [] ==> !IsJsSpace(Trim(s)[0]) && !IsJsSpace(Trim(s)[|Trim(s)| - 1])
  {
    var u := TrimStart(s);
    TrimStartShape(s);
    var a := |s| - |u|;
    var t := TrimEnd(u);
    TrimEndShape(u);
    var b := a + |t|;
    assert t == s[a..b];
    assert forall i :: b <= i < |s| ==> s[i] == u[i - a];
    if t != [] {
      assert t[0] == u[0];
    }
  }

  /** Trimming is empty exactly for text made only of white space. */
  lemma TrimEmptyIffAllSpace(s: string)
    ensures Trim(s) == [] <==> forall i :: 0 <= i < |s| ==> IsJsSpace(s[i])
  {
    TrimStartShape(s);
    TrimEndShape(TrimStart(s));
  }

  /** Trimming twice is trimming once. */
  lemma TrimIdempotent(s: string)
    ensures Trim(Trim(s)) == Trim(s)
  {
    var t := Trim(s);
    TrimIsCore(s);
    TrimStartShape(t);
    TrimEndShape(t);
    if t != [] {
      assert TrimStart(t) == t;
      assert TrimEnd(t) == t;
    }
  }
}
