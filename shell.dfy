/**
 * The shells a prompt is printed for: how each marks the zero-width control
 * sequences of a prompt, and how each escapes the text a segment shows.
 */
module Shells {
  import opened Text

  datatype Shell = Bash | Fish | Zsh

  /** The opening and closing marks of a zero-width sequence. */
  function Controls(sh: Shell): (string, string) {
    match sh
    case Bash => ("\\[", "\\]")
    case Fish => ("", "")
    case Zsh => ("%{", "%}")
  }

  /** `Shell::control`: a control sequence between the shell's two marks. */
  function Control(sh: Shell, c: string): (r: string)
    ensures |r| == |c| + |Controls(sh).0| + |Controls(sh).1|
    ensures r[|Controls(sh).0|..|r| - |Controls(sh).1|] == c
    ensures sh == Fish ==> r == c
  {
    Controls(sh).0 + c + Controls(sh).1
  }

  /** The examples of the shell tests, for the reset sequence `ESC [ m`. */
  lemma ControlExamples()
    ensures Control(Bash, "\U{1b}[m") == "\\[\U{1b}[m\\]"
    ensures Control(Fish, "\U{1b}[m") == "\U{1b}[m"
    ensures Control(Zsh, "\U{1b}[m") == "%{\U{1b}[m%}"
  {
  }

  /** Every occurrence of `c` written twice. */
  function Double(s: string, c: char): string {
    if s == [] then []
    else (if s[0] == c then [c, c] else [s[0]]) + Double(s[1..], c)
  }

  /** Reads a doubled `c` back as one `c`. */
  function Undouble(s: string, c: char): string {
    if s == [] then []
    else if |s| >= 2 && s[0] == c && s[1] == c then [c] + Undouble(s[2..], c)
    else [s[0]] + Undouble(s[1..], c)
  }

  /** The number of occurrences of `c` in `s`. */
  function Occurrences(s: string, c: char): (n: nat)
    ensures n <= |s|
  {
    if s == [] then 0 else (if s[0] == c then 1 else 0) + Occurrences(s[1..], c)
  }

  /** `Shell::escape`: Bash doubles the backslash, Zsh doubles `%`, Fish keeps the text. */
  function Escape(sh: Shell, s: string): string {
    match sh
    case Bash => Double(s, '\\')
    case Fish => s
    case Zsh => Double(s, '%')
  }

  /** What the shell reads the escaped text back as. */
  function Unescape(sh: Shell, s: string): string {
    match sh
    case Bash => Undouble(s, '\\')
    case Fish => s
    case Zsh => Undouble(s, '%')
  }

  lemma {:induction false} UndoubleDouble(s: string, c: char)
    ensures Undouble(Double(s, c), c) == s
  {
    if s != [] {
      UndoubleDouble(s[1..], c);
      var rest := Double(s[1..], c);
      if s[0] == c {
        assert Double(s, c) == [c, c] + rest;
        assert ([c, c] + rest)[2..] == rest;
      } else {
        assert Double(s, c) == [s[0]] + rest;
        assert ([s[0]] + rest)[1..] == rest;
      }
    }
  }

  /** The shell shows exactly the segment's text: unescaping undoes escaping. */
  lemma EscapeRoundTrip(sh: Shell, s: string)
    ensures Unescape(sh, Escape(sh, s)) == s
  {
    match sh
    case Bash => UndoubleDouble(s, '\\');
    case Fish =>
    case Zsh => UndoubleDouble(s, '%');
  }

  lemma {:induction false} DoubleLength(s: string, c: char)
    ensures |Double(s, c)| == |s| + Occurrences(s, c)
  {
    if s != [] {
      DoubleLength(s[1..], c);
    }
  }

  /** Escaping adds one character per escaped character and nothing else. */
  lemma EscapeLength(sh: Shell, s: string)
    ensures sh == Bash ==> |Escape(sh, s)| == |s| + Occurrences(s, '\\')
    ensures sh == Zsh ==> |Escape(sh, s)| == |s| + Occurrences(s, '%')
    ensures sh == Fish ==> Escape(sh, s) == s
  {
    DoubleLength(s, '\\');
    DoubleLength(s, '%');
  }

  /** Doubling is `str::replace` of the one-character pattern by two copies of it. */
  lemma {:induction false} DoubleIsReplace(s: string, c: char)
    ensures Double(s, c) == ReplaceAll(s, [[c]], [[c, c]])
  {
    if s != [] {
      DoubleIsReplace(s[1..], c);
      var pats: seq<Pattern> := [[c]];
      if s[0] == c {
        assert IsPrefix(pats[0], s);
      } else {
        assert !IsPrefix(pats[0], s);
      }
    }
  }
}
