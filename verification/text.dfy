/**
 * The JavaScript string primitives the core relies on: `trim`, ASCII
 * `toLowerCase`, `split`/`join` on one character, `startsWith`, `includes`,
 * `replace` of the first occurrence, `padStart`, integer printing and the
 * decimal subset of `Number(string)`.
 */
module Text {
  import opened Wrappers
  import Seqs

  /** ECMAScript WhiteSpace and LineTerminator code points: what `trim`
      removes and what the regular-expression class `\s` matches. */
  predicate IsSpace(c: char) {
    var n := c as int;
    n == 0x09 || n == 0x0A || n == 0x0B || n == 0x0C || n == 0x0D || n == 0x20
    || n == 0xA0 || n == 0x1680 || (0x2000 <= n <= 0x200A) || n == 0x2028
    || n == 0x2029 || n == 0x202F || n == 0x205F || n == 0x3000 || n == 0xFEFF
  }

  /** The regular-expression class `\d`: ASCII digits only. */
  predicate IsDigit(c: char) {
    '0' <= c <= '9'
  }

  predicate AllDigits(s: string) {
    forall i :: 0 <= i < |s| ==> IsDigit(s[i])
  }

  function LowerChar(c: char): char {
    if 'A' <= c <= 'Z' then (c as int + 32) as char else c
  }

  /** `toLowerCase`, restricted to the ASCII letters. */
  function Lower(s: string): string {
    seq(|s|, i requires 0 <= i < |s| => LowerChar(s[i]))
  }

  lemma LowerAppend(a: string, b: string)
    ensures Lower(a + b) == Lower(a) + Lower(b)
  {
  }

  // ---------------------------------------------------------------------------
  // trim

  function TrimStart(s: string): (r: string)
    ensures |r| <= |s| && r == s[|s| - |r|..]
    ensures forall i :: 0 <= i < |s| - |r| ==> IsSpace(s[i])
    ensures |r| > 0 ==> !IsSpace(r[0])
  {
    if |s| > 0 && IsSpace(s[0]) then TrimStart(s[1..]) else s
  }

  function TrimEnd(s: string): (r: string)
    ensures |r| <= |s| && r == s[..|r|]
    ensures forall i :: |r| <= i < |s| ==> IsSpace(s[i])
    ensures |r| > 0 ==> !IsSpace(r[|r| - 1])
  {
    if |s| > 0 && IsSpace(s[|s| - 1]) then TrimEnd(s[..|s| - 1]) else s
  }

  /** `String.prototype.trim`. */
  function Trim(s: string): string {
    TrimEnd(TrimStart(s))
  }

  predicate IsTrimmed(s: string) {
    |s| == 0 || (!IsSpace(s[0]) && !IsSpace(s[|s| - 1]))
  }

  /** Trimming removes exactly the surrounding white space: the result is a
      slice of the input, only white space lies outside it, and it neither
      starts nor ends with white space. */
  lemma TrimSpec(s: string)
    ensures exists i, j ::
              (0 <= i <= j <= |s| && Trim(s) == s[i..j]
               && (forall k :: 0 <= k < i ==> IsSpace(s[k]))
               && (forall k :: j <= k < |s| ==> IsSpace(s[k])))
    ensures IsTrimmed(Trim(s))
  {
    var i, j := TrimBounds(s);
  }

  /** Where the trimmed text lies in the input. */
  lemma TrimBounds(s: string) returns (i: nat, j: nat)
    ensures 0 <= i <= j <= |s| && Trim(s) == s[i..j]
    ensures forall k :: 0 <= k < i ==> IsSpace(s[k])
    ensures forall k :: j <= k < |s| ==> IsSpace(s[k])
  {
    var a := TrimStart(s);
    i := |s| - |a|;
    j := i + |TrimEnd(a)|;
    assert Trim(s) == s[i..j] by {
      assert a == s[i..];
      assert TrimEnd(a) == a[..j - i];
    }
    forall k | j <= k < |s|
      ensures IsSpace(s[k])
    {
      assert a == s[i..];
      assert s[k] == a[k - i];
    }
  }

  /** Trimming cannot introduce a character that was not there. */
  lemma TrimKeepsFree(s: string, c: char)
    requires Free(s, c)
    ensures Free(Trim(s), c)
  {
    TrimSpec(s);
  }

  lemma TrimOfTrimmed(s: string)
    requires IsTrimmed(s)
    ensures Trim(s) == s
  {
  }

  lemma TrimIdempotent(s: string)
    ensures Trim(Trim(s)) == Trim(s)
  {
    TrimSpec(s);
    TrimOfTrimmed(Trim(s));
  }

  lemma TrimEmptyIffAllSpace(s: string)
    ensures Trim(s) == "" <==> forall k :: 0 <= k < |s| ==> IsSpace(s[k])
  {
    if forall k :: 0 <= k < |s| ==> IsSpace(s[k]) {
      AllSpaceTrimStart(s);
    }
  }

  lemma AllSpaceTrimStart(s: string)
    requires forall k :: 0 <= k < |s| ==> IsSpace(s[k])
    ensures TrimStart(s) == ""
  {
  }

  /** A string with no white space at either end (in particular, one made
      only of non-space characters) is left alone by `trim`. */
  lemma TrimNoSpace(s: string)
    requires forall k :: 0 <= k < |s| ==> !IsSpace(s[k])
    ensures Trim(s) == s
  {
    TrimOfTrimmed(s);
  }

  // ---------------------------------------------------------------------------
  // split / join on one separator character

  /** `s.split(sep)` for a one-character separator: always at least one piece,
      `""` splits to `[""]`. */
  function Split(s: string, sep: char): (parts: seq<string>)
    ensures |parts| >= 1
  {
    if |s| == 0 then [""]
    else
      var rest := Split(s[1..], sep);
      if s[0] == sep then [""] + rest
      else [[s[0]] + rest[0]] + rest[1..]
  }

  /** `parts.join(sep)`. */
  function Join(parts: seq<string>, sep: char): string {
    if |parts| == 0 then ""
    else if |parts| == 1 then parts[0]
    else parts[0] + [sep] + Join(parts[1..], sep)
  }

  predicate Free(s: string, c: char) {
    forall k :: 0 <= k < |s| ==> s[k] != c
  }

  /** No piece of a split contains the separator. */
  lemma {:induction false} SplitPiecesFree(s: string, sep: char)
    ensures forall k :: 0 <= k < |Split(s, sep)| ==> Free(Split(s, sep)[k], sep)
  {
    if |s| > 0 {
      SplitPiecesFree(s[1..], sep);
    }
  }

  /** Splitting then joining with the same separator gives the input back. */
  lemma {:induction false} JoinSplit(s: string, sep: char)
    ensures Join(Split(s, sep), sep) == s
  {
    if |s| > 0 {
      var rest := Split(s[1..], sep);
      JoinSplit(s[1..], sep);
      if s[0] == sep {
        assert Split(s, sep) == [""] + rest;
        assert Join(Split(s, sep), sep) == "" + [sep] + Join(rest, sep);
        assert s == [s[0]] + s[1..];
      } else {
        var parts := Split(s, sep);
        assert parts == [[s[0]] + rest[0]] + rest[1..];
        if |rest| == 1 {
          assert Join(parts, sep) == [s[0]] + rest[0];
        } else {
          assert parts[1..] == rest[1..];
          assert Join(rest, sep) == rest[0] + [sep] + Join(rest[1..], sep);
          assert Join(parts, sep) == [s[0]] + rest[0] + [sep] + Join(rest[1..], sep);
        }
        assert s == [s[0]] + s[1..];
      }
    }
  }

  /** A separator-free string is one piece. */
  lemma {:induction false} SplitFree(a: string, sep: char)
    requires Free(a, sep)
    ensures Split(a, sep) == [a]
  {
    if |a| > 0 {
      SplitFree(a[1..], sep);
      assert [a[0]] + a[1..] == a;
    }
  }

  /** Splitting at a separator that follows a separator-free prefix. */
  lemma {:induction false} SplitAfterFree(a: string, sep: char, b: string)
    requires Free(a, sep)
    ensures Split(a + [sep] + b, sep) == [a] + Split(b, sep)
  {
    if |a| == 0 {
      assert a + [sep] + b == [sep] + b;
      assert ([sep] + b)[1..] == b;
    } else {
      SplitAfterFree(a[1..], sep, b);
      assert (a + [sep] + b)[1..] == a[1..] + [sep] + b;
      assert [a[0]] + a[1..] == a;
    }
  }

  /** Joining separator-free pieces and splitting again recovers the pieces. */
  lemma {:induction false} SplitJoin(parts: seq<string>, sep: char)
    requires |parts| >= 1
    requires forall k :: 0 <= k < |parts| ==> Free(parts[k], sep)
    ensures Split(Join(parts, sep), sep) == parts
  {
    if |parts| == 1 {
      SplitFree(parts[0], sep);
    } else {
      SplitJoin(parts[1..], sep);
      SplitAfterFree(parts[0], sep, Join(parts[1..], sep));
      assert [parts[0]] + parts[1..] == parts;
    }
  }

  /** `s.split(sep)[0]`: everything before the first separator. */
  function FirstSegment(s: string, sep: char): (r: string)
    ensures |r| <= |s| && r == s[..|r|]
    ensures Free(r, sep)
    ensures |r| < |s| ==> s[|r|] == sep
  {
    if |s| == 0 || s[0] == sep then "" else [s[0]] + FirstSegment(s[1..], sep)
  }

  lemma {:induction false} FirstSegmentIsSplitHead(s: string, sep: char)
    ensures Split(s, sep)[0] == FirstSegment(s, sep)
  {
    if |s| > 0 {
      FirstSegmentIsSplitHead(s[1..], sep);
    }
  }

  /** `s.split(sep)[1]` when the separator occurs: the text between the first
      and the second separator. */
  function SecondSegment(s: string, sep: char): string
    requires !Free(s, sep)
  {
    var a := FirstSegment(s, sep);
    FirstSegment(s[|a| + 1..], sep)
  }

  lemma SecondSegmentIsSplitSecond(s: string, sep: char)
    requires !Free(s, sep)
    ensures |Split(s, sep)| >= 2
    ensures Split(s, sep)[1] == SecondSegment(s, sep)
  {
    var a := FirstSegment(s, sep);
    var b := s[|a| + 1..];
    assert s == a + [sep] + b;
    SplitAfterFree(a, sep, b);
    FirstSegmentIsSplitHead(b, sep);
  }

  /** Items of a comma list: non-empty, trimmed, comma-free. */
  predicate CleanItems(items: seq<string>) {
    forall k :: 0 <= k < |items| ==> items[k] != "" && IsTrimmed(items[k]) && Free(items[k], ',')
  }

  /** `parts.map(v => v.trim())`. */
  function TrimAll(parts: seq<string>): (r: seq<string>)
    ensures |r| == |parts| && forall k :: 0 <= k < |parts| ==> r[k] == Trim(parts[k])
  {
    seq(|parts|, k requires 0 <= k < |parts| => Trim(parts[k]))
  }

  /** `Boolean` on a string: only the empty string is falsy. */
  predicate NonBlank(t: string) {
    t != ""
  }

  /** `value.split(",").map(v => v.trim()).filter(Boolean)`: the comma-list
      reading used for query strings and configuration variables. */
  function CommaList(s: string): (r: seq<string>)
    ensures r == Seqs.Filter(TrimAll(Split(s, ',')), NonBlank)
    ensures forall k :: 0 <= k < |r| ==> r[k] != "" && IsTrimmed(r[k]) && Free(r[k], ',')
  {
    SplitPiecesFree(s, ',');
    TrimmedNonEmptyIsFilter(Split(s, ','));
    TrimmedNonEmpty(Split(s, ','))
  }

  /** The trimmed parts that are not blank, in order. */
  function TrimmedNonEmpty(parts: seq<string>): (r: seq<string>)
    requires forall k :: 0 <= k < |parts| ==> Free(parts[k], ',')
    ensures |r| <= |parts|
    ensures forall k :: 0 <= k < |r| ==> r[k] != "" && IsTrimmed(r[k]) && Free(r[k], ',')
  {
    if |parts| == 0 then []
    else
      var t := Trim(parts[0]);
      assert IsTrimmed(t) && Free(t, ',') by {
        TrimSpec(parts[0]);
        TrimKeepsFree(parts[0], ',');
      }
      (if t == "" then [] else [t]) + TrimmedNonEmpty(parts[1..])
  }

  /** `TrimmedNonEmpty` is `parts.map(trim).filter(Boolean)`. */
  lemma {:induction false} TrimmedNonEmptyIsFilter(parts: seq<string>)
    requires forall k :: 0 <= k < |parts| ==> Free(parts[k], ',')
    ensures TrimmedNonEmpty(parts) == Seqs.Filter(TrimAll(parts), NonBlank)
  {
    if |parts| > 0 {
      TrimmedNonEmptyIsFilter(parts[1..]);
      FilterTrimAllStep(parts);
    }
  }

  /** The first step of filtering the trimmed parts. */
  lemma FilterTrimAllStep(parts: seq<string>)
    requires |parts| > 0
    ensures Seqs.Filter(TrimAll(parts), NonBlank)
            == (if Trim(parts[0]) == "" then [] else [Trim(parts[0])]) + Seqs.Filter(TrimAll(parts[1..]), NonBlank)
  {
    assert TrimAll(parts)[1..] == TrimAll(parts[1..]);
    assert TrimAll(parts)[0] == Trim(parts[0]);
  }

  /** The items of a comma list are exactly the non-blank trimmed pieces
      between commas, in their order. */
  lemma CommaListItems(s: string)
    ensures forall t :: t in CommaList(s) <==> t != "" && exists k :: 0 <= k < |Split(s, ',')| && t == Trim(Split(s, ',')[k])
    ensures Seqs.IsSubseq(CommaList(s), TrimAll(Split(s, ',')))
  {
    Seqs.FilterSpec(TrimAll(Split(s, ',')), NonBlank);
  }

  /** Round trip with padding: comma-free pieces that trim to clean items
      read back as those items, whatever white space surrounds them. */
  lemma CommaListPadded(pieces: seq<string>, items: seq<string>)
    requires |pieces| == |items| >= 1 && CleanItems(items)
    requires forall k :: 0 <= k < |pieces| ==> Free(pieces[k], ',') && Trim(pieces[k]) == items[k]
    ensures CommaList(Join(pieces, ',')) == items
  {
    SplitJoin(pieces, ',');
    assert TrimAll(pieces) == items;
    Seqs.FilterAll(items, NonBlank);
  }

  /** A space after the comma is ignored: `"a, b"` reads as `a` and `b`. */
  lemma CommaListSpaced(a: string, b: string)
    requires a != "" && IsTrimmed(a) && Free(a, ',')
    requires b != "" && IsTrimmed(b) && Free(b, ',')
    ensures CommaList(a + ", " + b) == [a, b]
  {
    var pb := " " + b;
    LeadingSpace(b);
    TrimOfTrimmed(a);
    assert Join([a, pb], ',') == a + ", " + b by {
      assert [a, pb][1..] == [pb];
    }
    assert CleanItems([a, b]);
    CommaListPadded([a, pb], [a, b]);
  }

  /** One leading space trims away and adds no comma. */
  lemma LeadingSpace(b: string)
    requires b != "" && IsTrimmed(b) && Free(b, ',')
    ensures Trim(" " + b) == b && Free(" " + b, ',')
  {
    LeadingSpaceTrims(b);
    assert Free(" " + b, ',') by {
      var pb := " " + b;
      assert forall k :: 1 <= k < |pb| ==> pb[k] == b[k - 1];
    }
  }

  lemma LeadingSpaceTrims(b: string)
    requires b != "" && IsTrimmed(b)
    ensures Trim(" " + b) == b
  {
    var pb := " " + b;
    assert TrimStart(pb) == TrimStart(b) by {
      assert pb[1..] == b;
    }
    assert TrimStart(b) == b && TrimEnd(b) == b;
  }

  lemma {:induction false} TrimmedNonEmptyFixed(parts: seq<string>)
    requires forall k :: 0 <= k < |parts| ==> parts[k] != "" && IsTrimmed(parts[k]) && Free(parts[k], ',')
    ensures TrimmedNonEmpty(parts) == parts
  {
    if |parts| > 0 {
      TrimOfTrimmed(parts[0]);
      TrimmedNonEmptyFixed(parts[1..]);
    }
  }

  /** Round trip: a list of non-empty, trimmed, comma-free items survives
      being comma-joined and read back as a comma list. */
  lemma CommaListJoin(items: seq<string>)
    requires forall k :: 0 <= k < |items| ==> items[k] != "" && IsTrimmed(items[k]) && Free(items[k], ',')
    ensures CommaList(Join(items, ',')) == items
  {
    if |items| == 0 {
      assert Split("", ',') == [""];
    } else {
      SplitJoin(items, ',');
      TrimmedNonEmptyFixed(items);
    }
  }

  // ---------------------------------------------------------------------------
  // prefixes, substrings, replacement

  predicate StartsWith(s: string, prefix: string) {
    |prefix| <= |s| && s[..|prefix|] == prefix
  }

  /** `s.includes(sub)`. */
  predicate Contains(s: string, sub: string)
    decreases |s|
  {
    StartsWith(s, sub) || (|s| > 0 && Contains(s[1..], sub))
  }

  /** Index of the first occurrence of `sub` in `s` (`indexOf`), if any. */
  function IndexOf(s: string, sub: string): (r: Option<nat>)
    ensures r.Some? ==> r.value + |sub| <= |s| && s[r.value..r.value + |sub|] == sub
    ensures r.Some? ==> forall k :: 0 <= k < r.value ==> !StartsWith(s[k..], sub)
    ensures r.None? ==> !Contains(s, sub)
    decreases |s|
  {
    if StartsWith(s, sub) then Some(0)
    else if |s| == 0 then None
    else
      match IndexOf(s[1..], sub)
      case None => None
      case Some(k) =>
        assert forall j :: 1 <= j <= k ==> s[j..] == s[1..][j - 1..];
        Some(k + 1)
  }

  /** `s.replace(sub, rep)` with a string pattern: only the first occurrence
      is replaced. */
  function ReplaceFirst(s: string, sub: string, rep: string): string {
    match IndexOf(s, sub)
    case None => s
    case Some(k) => s[..k] + rep + s[k + |sub|..]
  }

  /** Removing a pattern that the string starts with drops exactly that
      prefix, whatever follows. */
  lemma ReplaceFirstAtStart(p: string, rest: string)
    ensures ReplaceFirst(p + rest, p, "") == rest
  {
    assert StartsWith(p + rest, p);
  }

  lemma ReplaceFirstAbsent(s: string, sub: string, rep: string)
    requires !Contains(s, sub)
    ensures ReplaceFirst(s, sub, rep) == s
  {
    if IndexOf(s, sub).Some? {
      var k := IndexOf(s, sub).value;
      ContainsAt(s, sub, k);
    }
  }

  lemma {:induction false} ContainsAt(s: string, sub: string, k: nat)
    requires k + |sub| <= |s| && s[k..k + |sub|] == sub
    ensures Contains(s, sub)
    decreases k
  {
    if k > 0 {
      assert s[1..][k - 1..k - 1 + |sub|] == sub;
      ContainsAt(s[1..], sub, k - 1);
    }
  }

  // ---------------------------------------------------------------------------
  // numbers as text

  function DigitValue(c: char): nat
    requires IsDigit(c)
  {
    (c as int - '0' as int) as nat
  }

  /** The value of a string of decimal digits, most significant first. */
  function DigitsValue(s: string): nat
    requires AllDigits(s)
  {
    if |s| == 0 then 0 else DigitsValue(s[..|s| - 1]) * 10 + DigitValue(s[|s| - 1])
  }

  function Pow10(k: nat): (r: nat)
    ensures r >= 1
  {
    if k == 0 then 1 else 10 * Pow10(k - 1)
  }

  /** Leading zeros do not change the value of a digit string. */
  lemma {:induction false} LeadingZero(s: string)
    requires AllDigits(s)
    ensures AllDigits("0" + s) && DigitsValue("0" + s) == DigitsValue(s)
  {
    if |s| > 0 {
      LeadingZero(s[..|s| - 1]);
      assert ("0" + s)[..|"0" + s| - 1] == "0" + s[..|s| - 1];
    }
  }

  /** `digits.padStart(3, "0")`. */
  function PadStart3(s: string): (r: string)
    requires AllDigits(s)
    ensures AllDigits(r) && DigitsValue(r) == DigitsValue(s)
    ensures |r| == if |s| >= 3 then |s| else 3
    ensures |s| >= 3 ==> r == s
    decreases 3 - |s|
  {
    LeadingZero(s);
    if |s| >= 3 then s else PadStart3("0" + s)
  }

  function DigitChar(d: nat): char
    requires d < 10
  {
    ('0' as int + d) as char
  }

  /** Decimal rendering of a natural number, as `String(n)` prints it. */
  function NatToString(n: nat): (r: string)
    ensures |r| >= 1 && AllDigits(r)
  {
    if n < 10 then [DigitChar(n)] else NatToString(n / 10) + [DigitChar(n % 10)]
  }

  /** Printing a number and reading its digits back gives the number. */
  lemma {:induction false} NatToStringValue(n: nat)
    ensures DigitsValue(NatToString(n)) == n
  {
    if n >= 10 {
      NatToStringValue(n / 10);
      var s := NatToString(n);
      assert s[..|s| - 1] == NatToString(n / 10);
    }
  }

  lemma NatToStringInjective(m: nat, n: nat)
    requires NatToString(m) == NatToString(n)
    ensures m == n
  {
    NatToStringValue(m);
    NatToStringValue(n);
  }

  /** `String(i)` for an integer. */
  function IntToString(i: int): string {
    if i < 0 then "-" + NatToString(-i) else NatToString(i)
  }

  function IndexOfChar(s: string, c: char): (r: Option<nat>)
    ensures r.Some? ==> r.value < |s| && s[r.value] == c && Free(s[..r.value], c)
    ensures r.None? ==> Free(s, c)
  {
    if |s| == 0 then None
    else if s[0] == c then Some(0)
    else
      match IndexOfChar(s[1..], c)
      case None => None
      case Some(k) =>
        assert s[..k + 1] == [s[0]] + s[1..][..k];
        Some(k + 1)
  }

  /** An unsigned decimal literal: digits with an optional fractional part,
      at least one digit in all (`"7"`, `"7."`, `".5"`, `"24.9"`). */
  function UnsignedDecimal(t: string): Option<real> {
    match IndexOfChar(t, '.')
    case None =>
      if |t| > 0 && AllDigits(t) then Some(DigitsValue(t) as real) else None
    case Some(k) =>
      var ip := t[..k];
      var fp := t[k + 1..];
      if |ip| + |fp| > 0 && AllDigits(ip) && AllDigits(fp)
      then Some(DigitsValue(ip) as real + DigitsValue(fp) as real / Pow10(|fp|) as real)
      else None
  }

  /** `Number(s)` for a string; `None` stands for `NaN`. White space around
      the literal is ignored and a blank string reads as zero. */
  function JsNumber(s: string): Option<real> {
    var t := Trim(s);
    if t == "" then Some(0.0)
    else if t[0] == '-' then
      match UnsignedDecimal(t[1..])
      case Some(x) => Some(-x)
      case None => None
    else if t[0] == '+' then UnsignedDecimal(t[1..])
    else UnsignedDecimal(t)
  }

  lemma DigitsNotSpace(s: string)
    requires AllDigits(s)
    ensures forall k :: 0 <= k < |s| ==> !IsSpace(s[k])
  {
  }

  /** Round trip: the number a printed natural number reads back as is that
      number (how status ids such as `"2"` reach the query). */
  lemma JsNumberOfNat(n: nat)
    ensures JsNumber(NatToString(n)) == Some(n as real)
  {
    var s := NatToString(n);
    DigitsNotSpace(s);
    TrimNoSpace(s);
    NatToStringValue(n);
    assert s[0] != '-' && s[0] != '+';
    assert IndexOfChar(s, '.') == None;
  }
}
