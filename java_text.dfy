/**
 * The pieces of the Java class library the mesh loaders lean on, on strings:
 * String.split with limit 0, String.startsWith, Integer.parseInt (radix 10)
 * and the syntax Float.parseFloat accepts.
 */
module JavaText {
  import opened Wrappers

  /** The pieces of s between occurrences of any character of seps, empty
      pieces included: one more piece than there are separators. */
  function Fields(s: string, seps: set<char>): (r: seq<string>)
    ensures |r| >= 1
    decreases |s|
  {
    if |s| == 0 then [""]
    else
      var init := Fields(s[..|s| - 1], seps);
      var c := s[|s| - 1];
      if c in seps then init + [""]
      else init[..|init| - 1] + [init[|init| - 1] + [c]]
  }

  /** The pieces joined back with sep between them. */
  function Join(fs: seq<string>, sep: char): string
    requires |fs| >= 1
  {
    if |fs| == 1 then fs[0] else Join(fs[..|fs| - 1], sep) + [sep] + fs[|fs| - 1]
  }

  lemma JoinSnoc(fs: seq<string>, x: string, sep: char)
    requires |fs| >= 1
    ensures Join(fs + [x], sep) == Join(fs, sep) + [sep] + x
  {
    assert (fs + [x])[..|fs|] == fs;
  }

  /** Appending a character to the last piece appends it to the joined string. */
  lemma JoinExtendLast(fs: seq<string>, c: char, sep: char)
    requires |fs| >= 1
    ensures Join(fs[..|fs| - 1] + [fs[|fs| - 1] + [c]], sep) == Join(fs, sep) + [c]
  {
    var r := fs[..|fs| - 1] + [fs[|fs| - 1] + [c]];
    if |fs| > 1 {
      assert r[..|r| - 1] == fs[..|fs| - 1];
    }
  }

  /** Splitting on one character and joining with it gives the string back. */
  lemma {:induction false} FieldsJoin(s: string, sep: char)
    ensures Join(Fields(s, {sep}), sep) == s
    decreases |s|
  {
    if |s| > 0 {
      var s' := s[..|s| - 1];
      var c := s[|s| - 1];
      FieldsJoin(s', sep);
      assert s == s' + [c];
      if c == sep {
        JoinSnoc(Fields(s', {sep}), "", sep);
      } else {
        JoinExtendLast(Fields(s', {sep}), c, sep);
      }
    }
  }

  /** No piece contains a separator. */
  lemma {:induction false} FieldsAvoidSeparators(s: string, seps: set<char>)
    ensures forall k, i :: 0 <= k < |Fields(s, seps)| && 0 <= i < |Fields(s, seps)[k]| ==> Fields(s, seps)[k][i] !in seps
    decreases |s|
  {
    if |s| > 0 {
      FieldsAvoidSeparators(s[..|s| - 1], seps);
    }
  }

  /** The pieces of x + y: the last piece of x and the first of y join. */
  lemma {:induction false} FieldsAppend(x: string, y: string, seps: set<char>)
    ensures var fx := Fields(x, seps); var fy := Fields(y, seps);
      Fields(x + y, seps) == fx[..|fx| - 1] + [fx[|fx| - 1] + fy[0]] + fy[1..]
    decreases |y|
  {
    var fx := Fields(x, seps);
    var P, L := fx[..|fx| - 1], fx[|fx| - 1];
    if |y| == 0 {
      assert x + y == x;
      assert L + "" == L;
      assert fx == P + [L];
    } else {
      var y', c := y[..|y| - 1], y[|y| - 1];
      FieldsAppend(x, y', seps);
      assert y == y' + [c] && x + y == (x + y') + [c];
      FieldsAppendStep(x, y', c, seps);
    }
  }

  /** FieldsAppend for y' + [c], from FieldsAppend for y'. */
  lemma FieldsAppendStep(x: string, y': string, c: char, seps: set<char>)
    requires var fx := Fields(x, seps); var fy' := Fields(y', seps);
      Fields(x + y', seps) == fx[..|fx| - 1] + [fx[|fx| - 1] + fy'[0]] + fy'[1..]
    ensures var fx := Fields(x, seps); var fy := Fields(y' + [c], seps);
      Fields((x + y') + [c], seps) == fx[..|fx| - 1] + [fx[|fx| - 1] + fy[0]] + fy[1..]
  {
    var fx := Fields(x, seps);
    FieldsSnoc(x + y', c, seps);
    FieldsSnoc(y', c, seps);
    PiecesAfterStep(fx[..|fx| - 1], fx[|fx| - 1], Fields(y', seps), Fields(x + y', seps), c, c in seps);
  }

  /** FieldsAppendStep on the pieces alone: fxy' and fy' grow by the same
      character c, which is a separator when isSep holds. */
  lemma PiecesAfterStep(P: seq<string>, L: string, fy': seq<string>, fxy': seq<string>, c: char, isSep: bool)
    requires |fy'| >= 1 && fxy' == P + [L + fy'[0]] + fy'[1..]
    ensures var fxy := if isSep then fxy' + [""] else fxy'[..|fxy'| - 1] + [fxy'[|fxy'| - 1] + [c]];
      var fy := if isSep then fy' + [""] else fy'[..|fy'| - 1] + [fy'[|fy'| - 1] + [c]];
      fxy == P + [L + fy[0]] + fy[1..]
  {
    if isSep {
      PiecesAfterSeparator(P, L, fy');
    } else {
      PiecesAfterOther(P, L, fy', c);
    }
  }

  /** The pieces of s + [c]: a separator starts a new piece, any other
      character extends the last one. */
  lemma FieldsSnoc(s: string, c: char, seps: set<char>)
    ensures var f := Fields(s, seps);
      Fields(s + [c], seps) == if c in seps then f + [""] else f[..|f| - 1] + [f[|f| - 1] + [c]]
  {
    assert (s + [c])[..|s|] == s;
  }

  /** FieldsAppend's pieces when y ends in a separator. */
  lemma PiecesAfterSeparator(P: seq<string>, L: string, fy': seq<string>)
    requires |fy'| >= 1
    ensures var fy := fy' + [""];
      P + [L + fy'[0]] + fy'[1..] + [""] == P + [L + fy[0]] + fy[1..]
  {
    var fy := fy' + [""];
    assert fy[0] == fy'[0] && fy[1..] == fy'[1..] + [""];
  }

  /** FieldsAppend's pieces when y ends in another character. */
  lemma PiecesAfterOther(P: seq<string>, L: string, fy': seq<string>, c: char)
    requires |fy'| >= 1
    ensures var init := P + [L + fy'[0]] + fy'[1..];
      var fy := fy'[..|fy'| - 1] + [fy'[|fy'| - 1] + [c]];
      init[..|init| - 1] + [init[|init| - 1] + [c]] == P + [L + fy[0]] + fy[1..]
  {
    var init := P + [L + fy'[0]] + fy'[1..];
    var fy := fy'[..|fy'| - 1] + [fy'[|fy'| - 1] + [c]];
    if |fy'| == 1 {
      assert init == P + [L + fy'[0]];
      assert fy == [fy'[0] + [c]];
      assert L + fy'[0] + [c] == L + (fy'[0] + [c]);
    } else {
      var Q := fy'[1..];
      assert init[..|init| - 1] == P + [L + fy'[0]] + Q[..|Q| - 1];
      assert init[|init| - 1] == Q[|Q| - 1];
      assert fy[0] == fy'[0] && fy[1..] == Q[..|Q| - 1] + [Q[|Q| - 1] + [c]];
    }
  }

  lemma SeqAssoc<T>(xs: seq<T>, ys: seq<T>, zs: seq<T>)
    ensures xs + ys + zs == xs + (ys + zs)
  {
  }

  /** A separator between x and y: the pieces of x, then those of y. */
  lemma FieldsAroundSeparator(x: string, c: char, y: string, seps: set<char>)
    requires c in seps
    ensures Fields(x + [c] + y, seps) == Fields(x, seps) + Fields(y, seps)
  {
    assert (x + [c])[..|x|] == x;
    var fxc := Fields(x + [c], seps);
    assert fxc == Fields(x, seps) + [""];
    FieldsAppend(x + [c], y, seps);
    var fy := Fields(y, seps);
    assert fxc[..|fxc| - 1] == Fields(x, seps) && fxc[|fxc| - 1] + fy[0] == fy[0];
    assert fy == [fy[0]] + fy[1..];
    SeqAssoc(Fields(x, seps), [fy[0]], fy[1..]);
  }

  /** A character that is not a separator, put between x and y, lands in
      one piece and leaves the others alone. */
  lemma FieldsAroundOther(x: string, c: char, y: string, seps: set<char>)
    requires c !in seps
    ensures var fx := Fields(x, seps); var fy := Fields(y, seps);
      Fields(x + [c] + y, seps) == fx[..|fx| - 1] + [fx[|fx| - 1] + [c] + fy[0]] + fy[1..] &&
      Fields(x + y, seps) == fx[..|fx| - 1] + [fx[|fx| - 1] + fy[0]] + fy[1..]
  {
    assert (x + [c])[..|x|] == x;
    var fx := Fields(x, seps);
    var fxc := Fields(x + [c], seps);
    assert fxc == fx[..|fx| - 1] + [fx[|fx| - 1] + [c]];
    FieldsAppend(x + [c], y, seps);
    FieldsAppend(x, y, seps);
    assert fxc[..|fxc| - 1] == fx[..|fx| - 1];
  }

  /** The list with its trailing empty strings removed, as split(regex, 0) does. */
  function DropTrailingEmpty(fs: seq<string>): (r: seq<string>)
    ensures |r| <= |fs| && r == fs[..|r|]
    ensures |r| > 0 ==> r[|r| - 1] != ""
    ensures forall k :: |r| <= k < |fs| ==> fs[k] == ""
  {
    if |fs| > 0 && fs[|fs| - 1] == "" then DropTrailingEmpty(fs[..|fs| - 1]) else fs
  }

  /** s.split(String.valueOf(sep)) for a character that is not a regular
      expression metacharacter, such as ' ' or '/': a string without the
      separator is returned whole (even when empty); otherwise every
      occurrence separates, and trailing empty pieces are dropped. */
  function SplitOn(s: string, sep: char): seq<string>
  {
    if sep !in s then [s] else DropTrailingEmpty(Fields(s, {sep}))
  }

  const VerticalTab: char := 11 as char
  const FormFeed: char := 12 as char

  /** The characters matched by the regular expression \s. */
  const Whitespace: set<char> := {' ', '\t', '\n', VerticalTab, FormFeed, '\r'}

  function NonEmpty(fs: seq<string>): (r: seq<string>)
    ensures forall k :: 0 <= k < |r| ==> r[k] != ""
  {
    if |fs| == 0 then []
    else NonEmpty(fs[..|fs| - 1]) + (if fs[|fs| - 1] == "" then [] else [fs[|fs| - 1]])
  }

  predicate HasWhitespace(s: string) {
    exists i :: 0 <= i < |s| && s[i] in Whitespace
  }

  /** s.split("\\s+"): maximal runs of whitespace separate; a leading run
      yields one leading empty piece; trailing empty pieces are dropped, so a
      string of whitespace only gives no pieces at all, while the empty
      string, which has no match, gives [""]. */
  function SplitOnWhitespace(s: string): seq<string>
  {
    if !HasWhitespace(s) then [s]
    else
      var lead: seq<string> := if |s| > 0 && s[0] in Whitespace then [""] else [];
      DropTrailingEmpty(lead + NonEmpty(Fields(s, Whitespace)))
  }

  /** A line holding only whitespace (and at least one character of it) has
      no pieces, so indexing its first piece fails. */
  lemma {:induction false} WhitespaceOnlySplitsToNothing(s: string)
    requires |s| > 0
    requires forall i :: 0 <= i < |s| ==> s[i] in Whitespace
    ensures SplitOnWhitespace(s) == []
  {
    assert s[0] in Whitespace;
    AllSeparatorsGiveEmptyFields(s, Whitespace);
    assert NonEmpty(Fields(s, Whitespace)) == [];
  }

  lemma {:induction false} AllSeparatorsGiveEmptyFields(s: string, seps: set<char>)
    requires forall i :: 0 <= i < |s| ==> s[i] in seps
    ensures NonEmpty(Fields(s, seps)) == []
    decreases |s|
  {
    if |s| > 0 {
      AllSeparatorsGiveEmptyFields(s[..|s| - 1], seps);
      var init := Fields(s[..|s| - 1], seps);
      assert Fields(s, seps) == init + [""];
      assert (init + [""])[..|init|] == init;
    }
  }

  predicate StartsWith(s: string, prefix: string) {
    |prefix| <= |s| && s[..|prefix|] == prefix
  }

  // ----- Integer.parseInt -----

  const IntMin: int := -0x8000_0000
  const IntMax: int := 0x7fff_ffff

  predicate IsDigit(c: char) {
    '0' <= c <= '9'
  }

  predicate AllDigits(s: string) {
    forall i :: 0 <= i < |s| ==> IsDigit(s[i])
  }

  function DigitValue(c: char): nat
    requires IsDigit(c)
  {
    (c as int) - ('0' as int)
  }

  /** The value of a string of decimal digits, most significant first. */
  function DigitsValue(ds: string): nat
    requires AllDigits(ds)
  {
    if |ds| == 0 then 0 else DigitsValue(ds[..|ds| - 1]) * 10 + DigitValue(ds[|ds| - 1])
  }

  /** Integer.parseInt(s): an optional '-' or '+', at least one decimal
      digit and nothing else, with a value inside the 32-bit range; None
      stands for the NumberFormatException. */
  function ParseInt(s: string): (r: Option<int>)
    ensures r.Some? ==> IntMin <= r.value <= IntMax
  {
    if |s| == 0 then None
    else
      var signed := s[0] == '-' || s[0] == '+';
      var digits := if signed then s[1..] else s;
      if |digits| == 0 || !AllDigits(digits) then None
      else
        var v: int := if s[0] == '-' then -(DigitsValue(digits) as int) else DigitsValue(digits);
        if IntMin <= v <= IntMax then Some(v) else None
  }

  function DigitChar(d: nat): (c: char)
    requires d < 10
    ensures IsDigit(c) && DigitValue(c) == d
  {
    ((d + '0' as int) as char)
  }

  /** The decimal numeral of n, without leading zeros. */
  function DecimalString(n: nat): (s: string)
    ensures |s| > 0
  {
    if n < 10 then [DigitChar(n)] else DecimalString(n / 10) + [DigitChar(n % 10)]
  }

  lemma {:induction false} DecimalStringValue(n: nat)
    ensures AllDigits(DecimalString(n)) && DigitsValue(DecimalString(n)) == n
  {
    if n >= 10 {
      DecimalStringValue(n / 10);
      var s := DecimalString(n);
      assert s[..|s| - 1] == DecimalString(n / 10);
    }
  }

  /** parseInt reads back every numeral in the 32-bit range, positive or
      negative, and a leading '+' is accepted. */
  lemma ParseIntRoundTrip(n: nat)
    ensures n <= IntMax ==> ParseInt(DecimalString(n)) == Some(n)
    ensures n <= IntMax ==> ParseInt("+" + DecimalString(n)) == Some(n)
    ensures n <= -IntMin ==> ParseInt("-" + DecimalString(n)) == Some(-(n as int))
  {
    DecimalStringValue(n);
    var s := DecimalString(n);
    assert ("+" + s)[1..] == s;
    assert ("-" + s)[1..] == s;
    assert IsDigit(s[0]);
  }

  // ----- Float.parseFloat -----

  function SkipDigits(s: string, i: nat): (j: nat)
    requires i <= |s|
    ensures i <= j <= |s|
    ensures forall k :: i <= k < j ==> IsDigit(s[k])
    ensures j < |s| ==> !IsDigit(s[j])
    decreases |s| - i
  {
    if i < |s| && IsDigit(s[i]) then SkipDigits(s, i + 1) else i
  }

  /** The position after an optional exponent starting at j, or None when an
      'e' or 'E' is not followed by digits. */
  function ExponentEnd(b: string, j: nat): (r: Option<nat>)
    requires j <= |b|
    ensures r.Some? ==> j <= r.value <= |b|
  {
    if j < |b| && (b[j] == 'e' || b[j] == 'E') then
      var k := if j + 1 < |b| && (b[j + 1] == '+' || b[j + 1] == '-') then j + 2 else j + 1;
      var m := SkipDigits(b, k);
      if m > k then Some(m) else None
    else Some(j)
  }

  /** An unsigned decimal: digits with an optional point (at least one digit
      on either side), an optional exponent and an optional f, F, d or D. */
  predicate IsDecimalBody(b: string) {
    var i := SkipDigits(b, 0);
    var j := if i < |b| && b[i] == '.' then SkipDigits(b, i + 1) else i;
    var fraction := if i < |b| && b[i] == '.' then j - (i + 1) else 0;
    (i > 0 || fraction > 0) &&
    match ExponentEnd(b, j)
    case None => false
    case Some(k) => k == |b| || (k + 1 == |b| && b[k] in {'f', 'F', 'd', 'D'})
  }

  /** Java's String.trim: strips leading and trailing characters up to ' '. */
  function Trim(s: string): (t: string)
    ensures |t| <= |s|
    decreases |s|
  {
    if |s| > 0 && s[0] <= ' ' then Trim(s[1..])
    else if |s| > 0 && s[|s| - 1] <= ' ' then Trim(s[..|s| - 1])
    else s
  }

  /** The texts Float.parseFloat accepts without a NumberFormatException
      (hexadecimal literals aside): after trimming, an optional sign and then
      NaN, Infinity or a decimal body. */
  predicate IsFloatText(s: string) {
    var t := Trim(s);
    var body := if |t| > 0 && (t[0] == '+' || t[0] == '-') then t[1..] else t;
    body == "NaN" || body == "Infinity" || IsDecimalBody(body)
  }
}
