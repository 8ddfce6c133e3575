/** The JavaScript built-ins the contact handler leans on, written out over
    Dafny strings: truthiness, `(v || '').toString()`, `String.prototype.trim`,
    `toLowerCase`, `includes`, `split(' ')[0]` and `length`.

    A Dafny `char` is a Unicode scalar value; JavaScript strings are sequences
    of UTF-16 code units. Where the difference shows (`length`), it is written
    out explicitly. A JavaScript string holding an unpaired surrogate (such as
    `"\ud800"`) has no counterpart among Dafny strings and lies outside this
    model. */
module JsStrings {

  /** The largest integer a JavaScript number holds exactly, 2^53 - 1
      (`Number.MAX_SAFE_INTEGER`). */
  const MaxSafeInteger: int := 0x1F_FFFF_FFFF_FFFF

  /** The integers a JSON number parses to without rounding. All of them are
      below 10^21, so `toString` prints them in plain decimal. */
  type SafeInt = i: int | -MaxSafeInteger <= i <= MaxSafeInteger

  /** A value read out of the parsed JSON request body. JSON numbers are
      restricted to safe integers. */
  datatype JsValue = Undefined | Null | Bool(b: bool) | Int(i: SafeInt) | Str(s: string)

  /** JavaScript truthiness: `undefined`, `null`, `false`, `0` and `""` are
      falsy, every other value is truthy. */
  predicate Truthy(v: JsValue): (r: bool)
    ensures r <==> v !in {Undefined, Null, Bool(false), Int(0), Str("")}
  {
    match v
    case Undefined => false
    case Null => false
    case Bool(b) => b
    case Int(i) => i != 0
    case Str(s) => s != ""
  }

  predicate IsDigit(c: char) {
    '0' <= c <= '9'
  }

  /** The decimal digits of `n`, most significant first, with no leading
      zero: how `toString` prints a safe non-negative integer. */
  function Digits(n: nat): (r: string)
    ensures 0 < |r|
    ensures forall k :: 0 <= k < |r| ==> IsDigit(r[k])
    ensures |r| > 1 ==> r[0] != '0'
    decreases n
  {
    var d := [(48 + n % 10) as char];
    if n < 10 then d else Digits(n / 10) + d
  }

  /** The number a string of decimal digits denotes, read most significant
      digit first. */
  function DigitsValue(s: string): nat
    requires forall k :: 0 <= k < |s| ==> IsDigit(s[k])
  {
    if s == [] then 0
    else
      assert IsDigit(s[|s| - 1]);
      10 * DigitsValue(s[..|s| - 1]) + (s[|s| - 1] as int - 48)
  }

  /** Reading the printed digits gives the number back. */
  lemma {:induction false} DigitsRoundTrip(n: nat)
    ensures DigitsValue(Digits(n)) == n
  {
    if n >= 10 {
      DigitsRoundTrip(n / 10);
      var r := Digits(n);
      assert r[..|r| - 1] == Digits(n / 10);
    }
  }

  /** `String(i)` for a safe integer: a minus sign exactly for a negative
      number, then its digits. */
  function DecimalString(i: SafeInt): (r: string)
    ensures 0 < |r|
    ensures r[0] == '-' <==> i < 0
    ensures i < 0 ==> r[1..] == Digits(-i)
    ensures i >= 0 ==> r == Digits(i)
  {
    if i < 0 then "-" + Digits(-i) else Digits(i)
  }

  /** The printed form of a safe integer reads back as that integer. */
  lemma DecimalStringRoundTrip(i: SafeInt)
    ensures var r := DecimalString(i);
            if r[0] == '-' then i == -(DigitsValue(r[1..]) as int) else i == DigitsValue(r)
  {
    if i < 0 {
      DigitsRoundTrip(-i);
    } else {
      DigitsRoundTrip(i);
    }
  }

  /** `(v || '').toString()`: a falsy value becomes the empty string, any
      other value its string form. */
  function OrEmptyToString(v: JsValue): (r: string)
    ensures r == "" <==> !Truthy(v)
    ensures v.Str? ==> r == v.s
    ensures v == Bool(true) ==> r == "true"
    ensures v.Int? && v.i != 0 ==> r == DecimalString(v.i)
  {
    match v
    case Undefined => ""
    case Null => ""
    case Bool(b) => if b then "true" else ""
    case Int(i) => if i == 0 then "" else DecimalString(i)
    case Str(s) => s
  }

  /** The characters JavaScript counts as white space or line terminators:
      the set `trim` removes and the regular-expression class `\s` matches. */
  predicate IsSpace(c: char) {
    var n := c as int;
    n == 0x09 || n == 0x0A || n == 0x0B || n == 0x0C || n == 0x0D || n == 0x20 ||
    n == 0xA0 || n == 0x1680 || (0x2000 <= n <= 0x200A) || n == 0x2028 ||
    n == 0x2029 || n == 0x202F || n == 0x205F || n == 0x3000 || n == 0xFEFF
  }

  predicate AllSpace(s: string) {
    forall k :: 0 <= k < |s| ==> IsSpace(s[k])
  }

  /** Neither end of `s` is white space. */
  predicate Trimmed(s: string) {
    s == [] || (!IsSpace(s[0]) && !IsSpace(s[|s| - 1]))
  }

  /** `s` with its leading white space removed: a suffix of `s` that does not
      start with white space. */
  function TrimStart(s: string): (r: string)
    ensures |r| <= |s| && r == s[|s| - |r|..]
    ensures r == [] || !IsSpace(r[0])
  {
    if s != [] && IsSpace(s[0]) then TrimStart(s[1..]) else s
  }

  /** `s` with its trailing white space removed: a prefix of `s` that does not
      end with white space. */
  function TrimEnd(s: string): (r: string)
    ensures |r| <= |s| && r == s[..|r|]
    ensures r == [] || !IsSpace(r[|r| - 1])
  {
    if s != [] && IsSpace(s[|s| - 1]) then TrimEnd(s[..|s| - 1]) else s
  }

  /** What `TrimStart` cuts off is white space. */
  lemma {:induction false} TrimStartCutsSpace(s: string)
    ensures AllSpace(s[..|s| - |TrimStart(s)|])
  {
    if s != [] && IsSpace(s[0]) {
      TrimStartCutsSpace(s[1..]);
      var k := |s| - |TrimStart(s)|;
      assert s[..k] == [s[0]] + s[1..][..k - 1];
    }
  }

  /** What `TrimEnd` cuts off is white space. */
  lemma {:induction false} TrimEndCutsSpace(s: string)
    ensures AllSpace(s[|TrimEnd(s)|..])
  {
    if s != [] && IsSpace(s[|s| - 1]) {
      var p := s[..|s| - 1];
      TrimEndCutsSpace(p);
      assert s[|TrimEnd(s)|..] == p[|TrimEnd(p)|..] + [s[|s| - 1]];
    }
  }

  /** `s.trim()`: white space at neither end, and a string already without
      it is returned as it is. */
  function Trim(s: string): (r: string)
    ensures Trimmed(r)
    ensures |r| <= |s|
    ensures Trimmed(s) ==> r == s
  {
    TrimEnd(TrimStart(s))
  }

  /** The runs of white space `trim` cuts from each end of `s`. */
  lemma TrimParts(s: string) returns (lead: string, trail: string)
    ensures AllSpace(lead) && AllSpace(trail) && s == lead + Trim(s) + trail
  {
    var t := TrimStart(s);
    var r := TrimEnd(t);
    TrimStartCutsSpace(s);
    TrimEndCutsSpace(t);
    var k := |s| - |t|;
    lead, trail := s[..k], t[|r|..];
    assert t == s[k..];
    assert s == lead + t;
    assert r == t[..|r|];
    assert t == r + trail;
    assert lead + r + trail == lead + (r + trail);
  }

  /** `trim` cuts white space and nothing else: `s` is the trimmed string with
      a run of white space before it and one after it. */
  lemma TrimCutsOnlySpace(s: string)
    ensures exists lead, trail :: AllSpace(lead) && AllSpace(trail) && s == lead + Trim(s) + trail
  {
    var lead, trail := TrimParts(s);
  }

  /** Every character of the trimmed string comes from `s`. */
  lemma TrimKeepsCharacters(s: string)
    ensures forall c :: c in Trim(s) ==> c in s
  {
    var lead, trail := TrimParts(s);
    var r := Trim(s);
    forall j | 0 <= j < |r| ensures r[j] in s {
      assert s[|lead| + j] == r[j];
    }
  }

  /** The lower-case form of one character: ASCII letters and the upper-case
      letters of Latin-1 (`À` to `Þ`, without `×`), which is what
      `toLowerCase` does to them. */
  function LowerChar(c: char): (r: char)
    ensures 'A' <= c <= 'Z' ==> r as int == c as int + 32
    ensures 0xC0 <= c as int <= 0xDE && c as int != 0xD7 ==> r as int == c as int + 32
    ensures !('A' <= c <= 'Z') && !(0xC0 <= c as int <= 0xDE && c as int != 0xD7) ==> r == c
  {
    if 'A' <= c <= 'Z' || (0xC0 <= c as int <= 0xDE && c as int != 0xD7)
    then (c as int + 32) as char
    else c
  }

  /** The capital of one character, for the letters `LowerChar` covers: `a`
      to `z` and `à` to `þ` without `÷`; every other character is its own
      capital here. */
  function UpperChar(c: char): (r: char)
    ensures LowerChar(r) == LowerChar(c)
  {
    if 'a' <= c <= 'z' || (0xE0 <= c as int <= 0xFE && c as int != 0xF7)
    then (c as int - 32) as char
    else c
  }

  /** `t` is `s` with any of its letters written as capitals. */
  predicate CaseVariant(s: string, t: string) {
    |s| == |t| && forall k :: 0 <= k < |s| ==> t[k] == s[k] || t[k] == UpperChar(s[k])
  }

  /** `s.toLowerCase()`, character by character. */
  function ToLower(s: string): (r: string)
    ensures |r| == |s|
    ensures CaseVariant(r, s)
    ensures forall k :: 0 <= k < |r| ==>
              !('A' <= r[k] <= 'Z' || (0xC0 <= r[k] as int <= 0xDE && r[k] as int != 0xD7))
  {
    seq(|s|, k requires 0 <= k < |s| => LowerChar(s[k]))
  }

  /** Writing letters as capitals does not change the lower-case form. */
  lemma ToLowerIgnoresCapitals(s: string, t: string)
    requires CaseVariant(s, t)
    ensures ToLower(t) == ToLower(s)
  {
    forall k | 0 <= k < |s| ensures ToLower(t)[k] == ToLower(s)[k] {
      if t[k] != s[k] {
        assert LowerChar(UpperChar(s[k])) == LowerChar(s[k]);
      }
    }
  }

  /** `t` occurs in `s` starting at index `i`. */
  ghost predicate OccursAt(s: string, t: string, i: int) {
    0 <= i && i + |t| <= |s| && s[i..i + |t|] == t
  }

  /** `s.includes(t)`, by scanning `s` from the left. */
  function Includes(s: string, t: string): (r: bool)
    ensures r <==> exists i :: OccursAt(s, t, i)
    decreases |s|
  {
    if |s| < |t| then false
    else if s[..|t|] == t then (assert OccursAt(s, t, 0); true)
    else
      var rest := Includes(s[1..], t);
      assert forall i :: OccursAt(s[1..], t, i) ==> OccursAt(s, t, i + 1) by {
        forall i | OccursAt(s[1..], t, i) ensures OccursAt(s, t, i + 1) {
          assert s[1..][i..i + |t|] == s[i + 1..i + 1 + |t|];
        }
      }
      assert forall i :: 0 < i && OccursAt(s, t, i) ==> OccursAt(s[1..], t, i - 1) by {
        forall i | 0 < i && OccursAt(s, t, i) ensures OccursAt(s[1..], t, i - 1) {
          assert s[1..][i - 1..i - 1 + |t|] == s[i..i + |t|];
        }
      }
      rest
  }

  /** `s.split(sep)[0]`: the part of `s` before the first `sep`, or all of `s`
      when there is none. */
  function FirstSegment(s: string, sep: char): (r: string)
    ensures |r| <= |s| && r == s[..|r|]
    ensures sep !in r
    ensures |r| == |s| || s[|r|] == sep
  {
    if s == [] || s[0] == sep then [] else [s[0]] + FirstSegment(s[1..], sep)
  }

  /** When `sep` first occurs at index `k`, the first segment is `s[..k]`. */
  lemma {:induction false} FirstSegmentAt(s: string, sep: char, k: nat)
    requires k < |s| && s[k] == sep && sep !in s[..k]
    ensures FirstSegment(s, sep) == s[..k]
  {
    if k > 0 {
      assert s[0] == s[..k][0];
      assert s[1..][..k - 1] == s[1..k];
      FirstSegmentAt(s[1..], sep, k - 1);
      assert s[..k] == [s[0]] + s[1..k];
    }
  }

  /** `s.length`: the number of UTF-16 code units, two for every character
      outside the Basic Multilingual Plane. */
  function Utf16Length(s: string): (n: nat)
    ensures |s| <= n <= 2 * |s|
    ensures (forall k :: 0 <= k < |s| ==> s[k] as int < 0x10000) ==> n == |s|
    ensures |s| == 1 ==> n == (if s[0] as int < 0x10000 then 1 else 2)
  {
    if s == [] then 0 else (if s[0] as int < 0x10000 then 1 else 2) + Utf16Length(s[1..])
  }

  /** The length of a concatenation is the sum of the lengths: with the
      one-character case, every character counts on its own, one unit inside
      the Basic Multilingual Plane and two outside it. */
  lemma {:induction false} Utf16LengthAppend(a: string, b: string)
    ensures Utf16Length(a + b) == Utf16Length(a) + Utf16Length(b)
  {
    if a == [] {
      assert a + b == b;
    } else {
      assert (a + b)[0] == a[0];
      assert (a + b)[1..] == a[1..] + b;
      Utf16LengthAppend(a[1..], b);
    }
  }
}
