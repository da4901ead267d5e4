/** JavaScript strings as the page's validators see them: sequences of UTF-16
    code units, with the one whitespace set that both `String.prototype.trim`
    and the regular-expression class `\s` use. */
module JsText {

  /** One UTF-16 code unit; `.length` and non-Unicode regular expressions count these. */
  newtype CodeUnit = x: int | 0 <= x < 0x1_0000

  type JsString = seq<CodeUnit>

  const AT: CodeUnit := 0x40    // '@'
  const DOT: CodeUnit := 0x2E   // '.'
  const HASH: CodeUnit := 0x23  // '#'
  const SPACE: CodeUnit := 0x20

  // Letters used in the worked examples.
  const LETTER_A: CodeUnit := 0x61
  const LETTER_B: CodeUnit := 0x62
  const LETTER_C: CodeUnit := 0x63
  const LETTER_D: CodeUnit := 0x64

  /** The WhiteSpace and LineTerminator code points of ECMA-262 (ECMAScript):
      TAB, LF, VT, FF, CR, SPACE, NO-BREAK SPACE, the space separators of
      Unicode category Zs, LINE and PARAGRAPH SEPARATOR, and the byte order mark.
      `trim` strips exactly these, and `\s` matches exactly these. */
  predicate IsWhitespace(c: CodeUnit) {
    (0x09 <= c <= 0x0D) || c == 0x20 || c == 0xA0 || c == 0x1680 ||
    (0x2000 <= c <= 0x200A) || c == 0x2028 || c == 0x2029 || c == 0x202F ||
    c == 0x205F || c == 0x3000 || c == 0xFEFF
  }

  ghost predicate AllWhitespace(s: JsString) {
    forall k :: 0 <= k < |s| ==> IsWhitespace(s[k])
  }

  /** `s` has two non-whitespace code units (possibly the same one) that span at
      least `n` code units, ends included. */
  ghost predicate NonBlankSpan(s: JsString, n: nat) {
    exists i, j :: 0 <= i <= j < |s| && j - i + 1 >= n && !IsWhitespace(s[i]) && !IsWhitespace(s[j])
  }

  /** `String.prototype.trim`: strip whitespace from the front, then from the back. */
  function Trim(s: JsString): (r: JsString)
    decreases |s|
  {
    if s != [] && IsWhitespace(s[0]) then Trim(s[1..])
    else if s != [] && IsWhitespace(s[|s| - 1]) then Trim(s[..|s| - 1])
    else s
  }

  /** How many leading code units `trim` drops: the length of the leading run
      of whitespace. */
  function TrimOffset(s: JsString): (p: nat)
    ensures p <= |s|
    decreases |s|
  {
    if s != [] && IsWhitespace(s[0]) then 1 + TrimOffset(s[1..]) else 0
  }

  /** `t` is what remains of `s` once its whitespace ends are cut off at
      offset `p`: the infix of `s` starting at `p`, with only whitespace
      outside it, and neither starting nor ending with whitespace. */
  ghost predicate TrimmedAt(s: JsString, p: nat, t: JsString) {
    p + |t| <= |s| && t == s[p..p + |t|] &&
    (forall k :: 0 <= k < p ==> IsWhitespace(s[k])) &&
    (forall k :: p + |t| <= k < |s| ==> IsWhitespace(s[k])) &&
    (t != [] ==> !IsWhitespace(t[0]) && !IsWhitespace(t[|t| - 1]))
  }

  /** `trim` cuts exactly the whitespace ends: its result is the infix of `s`
      at `TrimOffset(s)` that `TrimmedAt` describes. */
  lemma {:induction false} TrimShape(s: JsString)
    ensures TrimmedAt(s, TrimOffset(s), Trim(s))
    decreases |s|, 1
  {
    if s != [] && IsWhitespace(s[0]) {
      TrimShapeFront(s);
    } else if s != [] && IsWhitespace(s[|s| - 1]) {
      TrimShapeBack(s);
    }
  }

  lemma {:induction false} TrimShapeFront(s: JsString)
    requires s != [] && IsWhitespace(s[0])
    ensures TrimmedAt(s, TrimOffset(s), Trim(s))
    decreases |s|, 0
  {
    var t := s[1..];
    TrimShape(t);
    var p, n := TrimOffset(t), |Trim(t)|;
    assert Trim(s) == t[p..p + n] == s[p + 1..p + 1 + n];
    forall k | 0 <= k < p + 1 ensures IsWhitespace(s[k]) {
      if k > 0 { assert s[k] == t[k - 1]; }
    }
    forall k | p + 1 + n <= k < |s| ensures IsWhitespace(s[k]) {
      assert s[k] == t[k - 1];
    }
  }

  lemma {:induction false} TrimShapeBack(s: JsString)
    requires s != [] && !IsWhitespace(s[0]) && IsWhitespace(s[|s| - 1])
    ensures TrimmedAt(s, TrimOffset(s), Trim(s))
    decreases |s|, 0
  {
    var t := s[..|s| - 1];
    TrimShape(t);
    assert TrimOffset(t) == 0 by {
      if t != [] { assert t[0] == s[0]; }
    }
    var n := |Trim(t)|;
    assert TrimOffset(s) == 0;
    assert Trim(s) == Trim(t);
    assert Trim(s) == s[..n] by { assert t[..n] == s[..n]; }
    forall k | n <= k < |s| ensures IsWhitespace(s[k]) {
      if k < |s| - 1 { assert s[k] == t[k]; }
    }
  }

  /** Trimming leaves nothing exactly when the value is all whitespace. */
  lemma TrimEmpty(s: JsString)
    ensures Trim(s) == [] <==> AllWhitespace(s)
  {
    TrimShape(s);
    var p, r := TrimOffset(s), Trim(s);
    if r != [] {
      assert !IsWhitespace(s[p]);
    }
  }

  /** The trimmed length is at least `n` exactly when two non-whitespace code
      units lie at least `n` apart (ends included). */
  lemma TrimmedLengthAtLeast(s: JsString, n: nat)
    requires n >= 1
    ensures |Trim(s)| >= n <==> NonBlankSpan(s, n)
  {
    TrimShape(s);
    var p, r := TrimOffset(s), Trim(s);
    if |r| >= n {
      assert !IsWhitespace(s[p]) && !IsWhitespace(s[p + |r| - 1]);
    }
    if NonBlankSpan(s, n) {
      var i, j :| 0 <= i <= j < |s| && j - i + 1 >= n && !IsWhitespace(s[i]) && !IsWhitespace(s[j]);
      assert p <= i && j < p + |r|;
    }
  }

  /** Trimming an already trimmed value changes nothing. */
  lemma TrimIdempotent(s: JsString)
    ensures Trim(Trim(s)) == Trim(s)
  {
    TrimShape(s);
    TrimmedIsFixed(Trim(s));
  }

  /** A value with no whitespace at either end is its own trim. */
  lemma TrimmedIsFixed(s: JsString)
    requires s != [] ==> !IsWhitespace(s[0]) && !IsWhitespace(s[|s| - 1])
    ensures Trim(s) == s
  {
  }
}
