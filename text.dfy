/**
 * String helpers shared by the segment builders: the multi-pattern template
 * substitution (AhoCorasick `replace_all` and `str::replace`), decimal
 * formatting of integers (`to_string`, `format!("{}")`), `join`, `reverse`,
 * the UTF-8 byte length of a string and the `as i32` truncation.
 */
module Text {
  import opened Wrappers

  /** A placeholder pattern of the substitution: never empty. */
  type Pattern = p: string | p != [] witness "?"

  predicate IsPrefix(p: string, s: string) {
    |p| <= |s| && s[..|p|] == p
  }

  function Min(a: nat, b: nat): nat {
    if a <= b then a else b
  }

  // ---------------------------------------------------------------------------
  // Template substitution
  // ---------------------------------------------------------------------------

  /**
   * The first pattern at or after index `from`, in list order, that `s`
   * starts with: the pattern a leftmost-first matcher picks at this position
   * (for placeholder sets the crate's standard match kind finds the same).
   */
  function FirstMatch(s: string, pats: seq<Pattern>, from: nat): (r: Option<nat>)
    requires from <= |pats|
    ensures r.Some? ==> from <= r.value < |pats| && IsPrefix(pats[r.value], s)
    ensures r.Some? ==> forall j :: from <= j < r.value ==> !IsPrefix(pats[j], s)
    ensures r.None? ==> forall j :: from <= j < |pats| ==> !IsPrefix(pats[j], s)
    decreases |pats| - from
  {
    if from == |pats| then None
    else if IsPrefix(pats[from], s) then Some(from)
    else FirstMatch(s, pats, from + 1)
  }

  /**
   * Replaces, in one left-to-right pass, every non-overlapping occurrence of
   * `pats[i]` by `reps[i]`. Replacement text is emitted as is and never
   * scanned again.
   */
  function ReplaceAll(s: string, pats: seq<Pattern>, reps: seq<string>): string
    requires |pats| == |reps|
    decreases |s|
  {
    if s == [] then []
    else match FirstMatch(s, pats, 0)
      case Some(i) => reps[i] + ReplaceAll(s[|pats[i]|..], pats, reps)
      case None => [s[0]] + ReplaceAll(s[1..], pats, reps)
  }

  /**
   * The placeholder lists of the builders: every pattern opens with `{`, and
   * no pattern is a prefix of another one.
   */
  predicate Placeholders(pats: seq<Pattern>) {
    && (forall i :: 0 <= i < |pats| ==> pats[i][0] == '{')
    && (forall i, j :: 0 <= i < |pats| && 0 <= j < |pats| && i != j ==> !IsPrefix(pats[i], pats[j]))
  }

  /** Text without a `{`: it cannot start any placeholder. */
  predicate Inert(t: string) {
    forall k :: 0 <= k < |t| ==> t[k] != '{'
  }

  /** A string no pattern occurs in. */
  predicate FreeOf(s: string, pats: seq<Pattern>) {
    forall i, j :: 0 <= i < |s| && 0 <= j < |pats| ==> !IsPrefix(pats[j], s[i..])
  }

  lemma {:induction false} ReplaceAllNoMatch(s: string, pats: seq<Pattern>, reps: seq<string>)
    requires |pats| == |reps| && FreeOf(s, pats)
    ensures ReplaceAll(s, pats, reps) == s
    decreases |s|
  {
    if s != [] {
      assert s[0..] == s;
      assert FirstMatch(s, pats, 0).None? by {
        forall j | 0 <= j < |pats| ensures !IsPrefix(pats[j], s) {
          assert !IsPrefix(pats[j], s[0..]);
        }
      }
      assert FreeOf(s[1..], pats) by {
        forall i, j | 0 <= i < |s[1..]| && 0 <= j < |pats| ensures !IsPrefix(pats[j], s[1..][i..]) {
          assert s[1..][i..] == s[i + 1..];
          assert !IsPrefix(pats[j], s[i + 1..]);
        }
      }
      ReplaceAllNoMatch(s[1..], pats, reps);
    }
  }

  lemma {:induction false} ReplaceAllInert(t: string, rest: string, pats: seq<Pattern>, reps: seq<string>)
    requires |pats| == |reps| && Placeholders(pats) && Inert(t)
    ensures ReplaceAll(t + rest, pats, reps) == t + ReplaceAll(rest, pats, reps)
    decreases |t|
  {
    if t != [] {
      var s, t' := t + rest, t[1..];
      assert s[0] == t[0] && s[1..] == t' + rest;
      ReplaceAllBraceFree(s, pats, reps);
      assert Inert(t') by { forall k | 0 <= k < |t'| ensures t'[k] != '{' { assert t'[k] == t[k + 1]; } }
      ReplaceAllInert(t', rest, pats, reps);
      calc {
        ReplaceAll(s, pats, reps);
        [t[0]] + ReplaceAll(t' + rest, pats, reps);
        [t[0]] + (t' + ReplaceAll(rest, pats, reps));
        { assert t == [t[0]] + t'; }
        t + ReplaceAll(rest, pats, reps);
      }
    } else {
      assert t + rest == rest;
    }
  }

  /** A string that does not open with `{` passes its first character through. */
  lemma ReplaceAllBraceFree(s: string, pats: seq<Pattern>, reps: seq<string>)
    requires |pats| == |reps| && Placeholders(pats) && s != [] && s[0] != '{'
    ensures ReplaceAll(s, pats, reps) == [s[0]] + ReplaceAll(s[1..], pats, reps)
  {
    forall j | 0 <= j < |pats| ensures !IsPrefix(pats[j], s) {
      if |pats[j]| <= |s| {
        assert s[..|pats[j]|][0] == s[0];
      }
    }
    assert FirstMatch(s, pats, 0).None?;
  }

  lemma ReplaceAllHole(i: nat, rest: string, pats: seq<Pattern>, reps: seq<string>)
    requires |pats| == |reps| && Placeholders(pats) && i < |pats|
    ensures ReplaceAll(pats[i] + rest, pats, reps) == reps[i] + ReplaceAll(rest, pats, reps)
  {
    var s := pats[i] + rest;
    assert IsPrefix(pats[i], s) by { assert s[..|pats[i]|] == pats[i]; }
    forall j | 0 <= j < i ensures !IsPrefix(pats[j], s) {
      var pi, pj := pats[i], pats[j];
      assert !IsPrefix(pj, pi) && !IsPrefix(pi, pj);
      if |pj| <= |pi| {
        assert s[..|pj|] == pi[..|pj|];
      } else if |pj| <= |s| {
        assert s[..|pj|][..|pi|] == pi;
      }
    }
    assert FirstMatch(s, pats, 0) == Some(i);
    assert s[|pats[i]|..] == rest;
  }

  /** A template taken apart: literal text or the placeholder of the given index. */
  datatype Part = Lit(text: string) | Hole(index: nat)

  predicate WellFormed(parts: seq<Part>, n: nat) {
    forall k :: 0 <= k < |parts| ==> match parts[k]
      case Lit(t) => Inert(t)
      case Hole(i) => i < n
  }

  /** The text of one part: the literal itself, or the string its placeholder index selects. */
  function PartText(p: Part, strs: seq<string>): string
    requires p.Hole? ==> p.index < |strs|
  {
    match p
    case Lit(t) => t
    case Hole(i) => strs[i]
  }

  /**
   * The parts spelled out with `strs[i]` for placeholder `i`: with the
   * patterns this is the template text, with the replacements the text
   * expected once every placeholder is filled in.
   */
  function Fill(parts: seq<Part>, strs: seq<string>): string
    requires WellFormed(parts, |strs|)
  {
    if parts == [] then []
    else
      assert WellFormed(parts[1..], |strs|) by {
        forall k | 0 <= k < |parts[1..]| ensures parts[1..][k] == parts[k + 1] { }
      }
      PartText(parts[0], strs) + Fill(parts[1..], strs)
  }

  /** The parts from index `k` on spell the text of part `k`, then the rest. */
  lemma FillFrom(parts: seq<Part>, strs: seq<string>, k: nat)
    requires WellFormed(parts, |strs|) && k < |parts|
    ensures WellFormed(parts[k..], |strs|) && WellFormed(parts[k + 1..], |strs|)
    ensures Fill(parts[k..], strs) == PartText(parts[k], strs) + Fill(parts[k + 1..], strs)
  {
    forall j | 0 <= j < |parts[k..]| ensures parts[k..][j] == parts[k + j] { }
    assert parts[k..][1..] == parts[k + 1..];
  }

  /**
   * Substitution over a template made of inert literals and placeholders
   * replaces exactly the placeholders and leaves the literals untouched.
   */
  lemma {:induction false} ReplaceAllTemplate(parts: seq<Part>, pats: seq<Pattern>, reps: seq<string>)
    requires |pats| == |reps| && Placeholders(pats) && WellFormed(parts, |pats|)
    ensures ReplaceAll(Fill(parts, pats), pats, reps) == Fill(parts, reps)
  {
    if parts != [] {
      assert WellFormed(parts[1..], |pats|) by {
        forall k | 0 <= k < |parts[1..]| ensures parts[1..][k] == parts[k + 1] { }
      }
      var rest := Fill(parts[1..], pats);
      ReplaceAllTemplate(parts[1..], pats, reps);
      match parts[0]
      case Lit(t) =>
        assert Inert(t) by { assert parts[0] == Lit(t); }
        ReplaceAllInert(t, rest, pats, reps);
      case Hole(i) =>
        ReplaceAllHole(i, rest, pats, reps);
    }
  }

  // ---------------------------------------------------------------------------
  // Decimal formatting
  // ---------------------------------------------------------------------------

  predicate IsDigits(s: string) {
    forall i :: 0 <= i < |s| ==> '0' <= s[i] <= '9'
  }

  function DigitChar(d: nat): (c: char)
    requires d < 10
    ensures '0' <= c <= '9' && c as int - '0' as int == d
  {
    ('0' as int + d) as char
  }

  function DigitValue(c: char): nat
    requires '0' <= c <= '9'
  {
    c as int - '0' as int
  }

  /** The decimal digits of `n`, most significant first, without leading zeros. */
  function NatToString(n: nat): (s: string)
    ensures |s| >= 1 && IsDigits(s)
    ensures s[0] == '0' <==> n == 0
    ensures n < 10 <==> |s| == 1
    decreases n
  {
    if n < 10 then [DigitChar(n)] else NatToString(n / 10) + [DigitChar(n % 10)]
  }

  /** The value of a string of decimal digits. */
  function ParseDigits(s: string): nat
    requires IsDigits(s)
  {
    if s == [] then 0 else ParseDigits(s[..|s| - 1]) * 10 + DigitValue(s[|s| - 1])
  }

  lemma {:induction false} ParseNatToString(n: nat)
    ensures ParseDigits(NatToString(n)) == n
    decreases n
  {
    if n >= 10 {
      var s := NatToString(n);
      assert s[..|s| - 1] == NatToString(n / 10);
      ParseNatToString(n / 10);
    }
  }

  /** Rust's `Display` for a signed integer: a `-` before the digits of a negative value. */
  function IntToString(i: int): (s: string)
    ensures |s| >= 1
    ensures s[0] == '-' <==> i < 0
    ensures i >= 0 ==> s == NatToString(i)
    ensures i < 0 ==> s[1..] == NatToString(-i)
  {
    if i < 0 then "-" + NatToString(-i) else NatToString(i)
  }

  /** The integer written by `IntToString`, read back. */
  function ParseInt(s: string): Option<int> {
    if |s| >= 2 && s[0] == '-' && IsDigits(s[1..]) then Some(0 - ParseDigits(s[1..]))
    else if |s| >= 1 && IsDigits(s) then Some(ParseDigits(s))
    else None
  }

  lemma ParseNatString(n: nat)
    ensures ParseInt(NatToString(n)) == Some(n)
  {
    var s := NatToString(n);
    assert '0' <= s[0] <= '9';
    ParseNatToString(n);
  }

  lemma ParseNegativeString(n: nat)
    ensures ParseInt("-" + NatToString(n)) == Some(-(n as int))
  {
    var d := NatToString(n);
    var s := "-" + d;
    assert s[0] == '-' && s[1..] == d && |s| >= 2;
    ParseNatToString(n);
  }

  lemma IntToStringRoundTrip(i: int)
    ensures ParseInt(IntToString(i)) == Some(i)
  {
    if i < 0 {
      ParseNegativeString(-i);
    } else {
      ParseNatString(i);
    }
  }

  // ---------------------------------------------------------------------------
  // Sequences of strings
  // ---------------------------------------------------------------------------

  /** `[..].join(sep)`: the parts with `sep` between consecutive ones. */
  function Join(parts: seq<string>, sep: string): string {
    if parts == [] then []
    else if |parts| == 1 then parts[0]
    else parts[0] + sep + Join(parts[1..], sep)
  }

  /** `str::split(sep)`: the pieces between separators, empty ones included; never no piece. */
  function Split(s: string, sep: char): (r: seq<string>)
    ensures |r| >= 1
    ensures forall i :: 0 <= i < |r| ==> sep !in r[i]
  {
    if s == [] then [[]]
    else if s[0] == sep then [[]] + Split(s[1..], sep)
    else
      var rest := Split(s[1..], sep);
      [[s[0]] + rest[0]] + rest[1..]
  }

  /** Joining the pieces with the separator gives the text back. */
  lemma {:induction false} SplitJoinBack(s: string, sep: char)
    ensures Join(Split(s, sep), [sep]) == s
  {
    if s != [] {
      var rest := Split(s[1..], sep);
      SplitJoinBack(s[1..], sep);
      if s[0] == sep {
        assert ([[]] + rest)[1..] == rest;
      } else {
        var r := [[s[0]] + rest[0]] + rest[1..];
        assert r[1..] == rest[1..];
        if |rest| > 1 {
          assert Join(rest, [sep]) == rest[0] + [sep] + Join(rest[1..], [sep]);
        }
      }
    }
  }

  function Reverse<T>(s: seq<T>): (r: seq<T>)
    ensures |r| == |s|
  {
    if s == [] then [] else Reverse(s[1..]) + [s[0]]
  }

  lemma {:induction false} ReverseIndex<T>(s: seq<T>, k: nat)
    requires k < |s|
    ensures Reverse(s)[k] == s[|s| - 1 - k]
    decreases |s|
  {
    if k < |s| - 1 {
      ReverseIndex(s[1..], k);
    }
  }

  lemma {:induction false} ReverseAppend<T>(s: seq<T>, x: T)
    ensures Reverse(s + [x]) == [x] + Reverse(s)
    decreases |s|
  {
    if s != [] {
      assert (s + [x])[1..] == s[1..] + [x];
      ReverseAppend(s[1..], x);
    } else {
      assert Reverse([x]) == Reverse([x][1..]) + [x];
    }
  }

  // ---------------------------------------------------------------------------
  // Byte length and integer width
  // ---------------------------------------------------------------------------

  /** The number of bytes `c` takes in UTF-8. */
  function Utf8Width(c: char): nat {
    if c as int < 0x80 then 1
    else if c as int < 0x800 then 2
    else if c as int < 0x10000 then 3
    else 4
  }

  /** `str::len`: the UTF-8 byte length of `s`. */
  function Utf8Len(s: string): (n: nat)
    ensures n >= |s|
    ensures n == |s| <==> forall i :: 0 <= i < |s| ==> s[i] as int < 0x80
  {
    if s == [] then 0 else Utf8Width(s[0]) + Utf8Len(s[1..])
  }

  const I32Modulus: int := 0x1_0000_0000

  /** `n as i32`: two's-complement truncation to 32 bits. */
  function AsI32(n: int): (r: int)
    ensures -0x8000_0000 <= r < 0x8000_0000
    ensures (r - n) % I32Modulus == 0
    ensures -0x8000_0000 <= n < 0x8000_0000 ==> r == n
  {
    (n + 0x8000_0000) % I32Modulus - 0x8000_0000
  }
}
