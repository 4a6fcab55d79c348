/** The email format check of the survey form: the regular expression
    `^[^\s@]+@[^\s@]+\.[^\s@]+$`, tested against the lower-cased address.

    The expression is modelled three ways and the three are proved to agree:
    - `Scan`, a finite automaton that reads the address once (what a regex
      engine does for this pattern), which `ValidEmail` runs;
    - `PatternMatch`, the meaning of the pattern itself: the address splits
      into three non-empty runs of `[^\s@]` joined by `@` and `.`;
    - `EmailShape`, the plain-words description: exactly one `@`, a non-empty
      local part, and a domain with a `.` that is neither first nor last. */
module EmailCheck {

  /** Membership in the `\s` class of ECMAScript regular expressions: the
      WhiteSpace and LineTerminator code points of ECMA-262. */
  predicate IsSpace(c: char): (b: bool)
    ensures c as int < 128 ==> (b <==> c == ' ' || '\t' <= c <= '\r')
    ensures b ==> c != '@' && c != '.'
  {
    || c == '\t' || c == '\n' || c == '\U{000B}' || c == '\U{000C}' || c == '\r'
    || c == ' ' || c == '\U{00A0}' || c == '\U{1680}'
    || ('\U{2000}' <= c <= '\U{200A}')
    || c == '\U{2028}' || c == '\U{2029}' || c == '\U{202F}' || c == '\U{205F}'
    || c == '\U{3000}' || c == '\U{FEFF}'
  }

  /** A character of the class `[^\s@]`. */
  predicate Clean(c: char) {
    !IsSpace(c) && c != '@'
  }

  /** `toLowerCase` on one character, for the letters A-Z. */
  function LowerChar(c: char): (d: char)
    ensures Clean(d) <==> Clean(c)
    ensures d == '@' <==> c == '@'
    ensures d == '.' <==> c == '.'
  {
    if 'A' <= c <= 'Z' then (c as int + 32) as char else c
  }

  /** `String(email).toLowerCase()`. */
  function ToLower(s: string): (r: string)
    ensures |r| == |s|
    ensures forall i :: 0 <= i < |s| ==> r[i] == LowerChar(s[i])
  {
    if s == [] then [] else [LowerChar(s[0])] + ToLower(s[1..])
  }

  // ---------------------------------------------------------------------
  // The automaton

  /** How much of `^[^\s@]+@[^\s@]+\.[^\s@]+$` has been read. */
  datatype Phase =
    | Start   // nothing read yet
    | Local   // one or more local-part characters
    | AtSign  // the `@` was just read
    | Domain  // domain characters, no `.` yet that could end the second run
    | Dot     // the last character read was such a `.`
    | Suffix  // at least one character after such a `.`: accepting
    | Dead    // no continuation can match

  function Step(p: Phase, c: char): Phase {
    match p
    case Start => if Clean(c) then Local else Dead
    case Local => if c == '@' then AtSign else if Clean(c) then Local else Dead
    case AtSign => if Clean(c) then Domain else Dead
    case Domain => if c == '.' then Dot else if Clean(c) then Domain else Dead
    case Dot => if Clean(c) then Suffix else Dead
    case Suffix => if Clean(c) then Suffix else Dead
    case Dead => Dead
  }

  function Scan(p: Phase, s: string): Phase
    decreases |s|
  {
    if s == [] then p else Scan(Step(p, s[0]), s[1..])
  }

  /** `re.test(String(email).toLowerCase())` for the email regex. */
  function ValidEmail(email: string): (ok: bool)
    ensures ok ==> |email| >= 5
  {
    if Scan(Start, ToLower(email)) == Suffix then
      ScanIgnoresCase(Start, email);
      ScanLanguage(Start, email);
      ShapeIsStartLanguage(email);
      ShapeLength(email);
      true
    else
      false
  }

  /** The automaton run on the lower-cased address accepts exactly the
      addresses the pattern matches, which are those of the plain-words
      shape. */
  lemma ValidEmailMeaning(email: string)
    ensures ValidEmail(email) <==> EmailShape(email)
    ensures ValidEmail(email) <==> PatternMatch(email)
  {
    ScanIgnoresCase(Start, email);
    ScanLanguage(Start, email);
    ShapeIsStartLanguage(email);
    PatternIffShape(email);
  }

  // ---------------------------------------------------------------------
  // Declarative readings of the pattern

  /** Every character of `s` at an index in [lo, hi) is in `[^\s@]`. */
  predicate CleanIn(s: string, lo: nat, hi: int)
    requires hi <= |s|
  {
    forall n :: lo <= n < hi ==> Clean(s[n])
  }

  /** Some index in [lo, hi) of `s` holds a `.`. */
  predicate DotIn(s: string, lo: nat, hi: int)
    requires hi <= |s|
  {
    exists k :: lo <= k < hi && s[k] == '.'
  }

  /** `s` holds an `@` at index `i` and nowhere else. */
  predicate OnlyAt(s: string, i: nat) {
    forall j :: 0 <= j < |s| && s[j] == '@' ==> j == i
  }

  /** The address as it is usually described: exactly one `@`, at index
      `i`; a non-empty local part `s[..i]` without whitespace or `@`; a
      domain `s[i+1..]` without whitespace or `@` holding a `.` that is
      neither its first character (index i+1) nor its last (|s|-1). */
  ghost predicate EmailShape(s: string) {
    exists i :: 0 < i < |s| && s[i] == '@' && OnlyAt(s, i)
      && CleanIn(s, 0, i) && CleanIn(s, i + 1, |s|) && DotIn(s, i + 2, |s| - 1)
  }

  /** The regular expression read literally: `s` is `a + "@" + b + "." + c`
      with `a`, `b`, `c` non-empty runs of `[^\s@]`; the `@` is at `i` and
      the `.` at `j`. */
  ghost predicate PatternMatch(s: string) {
    exists i, j :: 0 < i && i + 1 < j && j + 1 < |s| && s[i] == '@' && s[j] == '.'
      && CleanIn(s, 0, i) && CleanIn(s, i + 1, j) && CleanIn(s, j + 1, |s|)
  }

  /** The suffixes `t` that lead from phase `p` to `Suffix`. */
  ghost predicate Lang(p: Phase, t: string) {
    match p
    case Start =>
      exists i :: 0 < i < |t| && t[i] == '@'
        && CleanIn(t, 0, i) && CleanIn(t, i + 1, |t|) && DotIn(t, i + 2, |t| - 1)
    case Local =>
      exists i :: 0 <= i < |t| && t[i] == '@'
        && CleanIn(t, 0, i) && CleanIn(t, i + 1, |t|) && DotIn(t, i + 2, |t| - 1)
    case AtSign => CleanIn(t, 0, |t|) && DotIn(t, 1, |t| - 1)
    case Domain => CleanIn(t, 0, |t|) && DotIn(t, 0, |t| - 1)
    case Dot => |t| > 0 && CleanIn(t, 0, |t|)
    case Suffix => CleanIn(t, 0, |t|)
    case Dead => false
  }

  // ---------------------------------------------------------------------
  // Lemmas

  /** Dropping the first character shifts every index down by one. */
  lemma Shift(t: string, lo: nat, hi: int)
    requires |t| > 0 && hi <= |t| - 1
    ensures CleanIn(t[1..], lo, hi) <==> CleanIn(t, lo + 1, hi + 1)
    ensures DotIn(t[1..], lo, hi) <==> DotIn(t, lo + 1, hi + 1)
  {
    var r := t[1..];
    if DotIn(t, lo + 1, hi + 1) {
      var k :| lo + 1 <= k < hi + 1 && t[k] == '.';
      assert r[k - 1] == '.';
    }
    if CleanIn(t, lo + 1, hi + 1) {
      forall n | lo <= n < hi ensures Clean(r[n]) {
        assert r[n] == t[n + 1];
      }
    }
  }

  /** From `Start`, a first clean character leads to `Local` with the
      rest of the address; the `@` then sits one index earlier. */
  lemma StartStep(t: string)
    requires |t| > 0
    ensures Lang(Start, t) <==> Lang(Step(Start, t[0]), t[1..])
  {
    var c, r := t[0], t[1..];
    if Lang(Start, t) {
      var i :| 0 < i < |t| && t[i] == '@'
        && CleanIn(t, 0, i) && CleanIn(t, i + 1, |t|) && DotIn(t, i + 2, |t| - 1);
      Shift(t, 0, i - 1);
      Shift(t, i, |r|);
      Shift(t, i + 1, |r| - 1);
      assert r[i - 1] == '@';
    }
    if Lang(Local, r) && Clean(c) {
      LocalPrepend(t);
    }
  }

  /** A clean first character in front of a suffix of `Local`'s language
      keeps it in that language, the `@` moving one index later. */
  lemma LocalPrepend(t: string)
    requires |t| > 0 && Clean(t[0]) && Lang(Local, t[1..])
    ensures Lang(Start, t) && Lang(Local, t)
  {
    var r := t[1..];
    var i :| 0 <= i < |r| && r[i] == '@'
      && CleanIn(r, 0, i) && CleanIn(r, i + 1, |r|) && DotIn(r, i + 2, |r| - 1);
    Shift(t, 0, i);
    Shift(t, i + 1, |r|);
    Shift(t, i + 2, |r| - 1);
    assert t[i + 1] == '@';
  }

  /** From `Local`, either the `@` comes next, or one more local character. */
  lemma LocalStep(t: string)
    requires |t| > 0
    ensures Lang(Local, t) <==> Lang(Step(Local, t[0]), t[1..])
  {
    var c, r := t[0], t[1..];
    if Lang(Local, t) {
      var i :| 0 <= i < |t| && t[i] == '@'
        && CleanIn(t, 0, i) && CleanIn(t, i + 1, |t|) && DotIn(t, i + 2, |t| - 1);
      if i == 0 {
        Shift(t, 0, |r|);
        Shift(t, 1, |r| - 1);
      } else {
        Shift(t, 0, i - 1);
        Shift(t, i, |r|);
        Shift(t, i + 1, |r| - 1);
        assert r[i - 1] == '@';
      }
    }
    if c == '@' && Lang(AtSign, r) {
      Shift(t, 0, |r|);
      Shift(t, 1, |r| - 1);
    }
    if c != '@' && Clean(c) && Lang(Local, r) {
      LocalPrepend(t);
    }
  }

  /** One step of the automaton consumes the first character of a suffix
      of its language, and no other. */
  lemma StepLanguage(p: Phase, t: string)
    requires |t| > 0
    ensures Lang(p, t) <==> Lang(Step(p, t[0]), t[1..])
  {
    var r := t[1..];
    match p {
      case Start => StartStep(t);
      case Local => LocalStep(t);
      case AtSign =>
        Shift(t, 0, |r|);
        Shift(t, 0, |r| - 1);
      case Domain =>
        Shift(t, 0, |r|);
        Shift(t, 0, |r| - 1);
      case Dot =>
        Shift(t, 0, |r|);
      case Suffix =>
        Shift(t, 0, |r|);
      case Dead =>
    }
  }

  /** Running the automaton from `p` over `t` accepts exactly the language of `p`. */
  lemma {:induction false} ScanLanguage(p: Phase, t: string)
    ensures Scan(p, t) == Suffix <==> Lang(p, t)
    decreases |t|
  {
    if t != [] {
      StepLanguage(p, t);
      ScanLanguage(Step(p, t[0]), t[1..]);
    }
  }

  /** Lower-casing never changes where the automaton ends. */
  lemma {:induction false} ScanIgnoresCase(p: Phase, s: string)
    ensures Scan(p, ToLower(s)) == Scan(p, s)
    decreases |s|
  {
    if s != [] {
      var l := ToLower(s);
      assert Step(p, l[0]) == Step(p, s[0]);
      assert l[1..] == ToLower(s[1..]);
      ScanIgnoresCase(Step(p, s[0]), s[1..]);
    }
  }

  /** The plain-words description is the automaton's language from `Start`:
      a second `@` is already excluded by the two clean runs. */
  lemma ShapeIsStartLanguage(s: string)
    ensures EmailShape(s) <==> Lang(Start, s)
  {
    if Lang(Start, s) {
      var i :| 0 < i < |s| && s[i] == '@'
        && CleanIn(s, 0, i) && CleanIn(s, i + 1, |s|) && DotIn(s, i + 2, |s| - 1);
      assert OnlyAt(s, i);
    }
  }

  /** The literal reading of the regular expression agrees with the
      plain-words description. */
  lemma PatternIffShape(s: string)
    ensures PatternMatch(s) <==> EmailShape(s)
  {
    if PatternMatch(s) {
      var i, j :| 0 < i && i + 1 < j && j + 1 < |s| && s[i] == '@' && s[j] == '.'
        && CleanIn(s, 0, i) && CleanIn(s, i + 1, j) && CleanIn(s, j + 1, |s|);
      assert CleanIn(s, i + 1, |s|);
      assert DotIn(s, i + 2, |s| - 1);
      ShapeIsStartLanguage(s);
    }
    if EmailShape(s) {
      var i :| 0 < i < |s| && s[i] == '@' && OnlyAt(s, i)
        && CleanIn(s, 0, i) && CleanIn(s, i + 1, |s|) && DotIn(s, i + 2, |s| - 1);
      var j :| i + 2 <= j < |s| - 1 && s[j] == '.';
      assert CleanIn(s, i + 1, j) && CleanIn(s, j + 1, |s|);
    }
  }

  /** The shortest accepted shape is `a@b.c`. */
  lemma ShapeLength(s: string)
    requires EmailShape(s)
    ensures |s| >= 5
  {
    var i :| 0 < i < |s| && s[i] == '@' && OnlyAt(s, i)
      && CleanIn(s, 0, i) && CleanIn(s, i + 1, |s|) && DotIn(s, i + 2, |s| - 1);
  }

  /** Lower-casing the address before the test never changes the verdict of
      the pattern. */
  lemma LowercaseIrrelevant(s: string)
    ensures PatternMatch(ToLower(s)) <==> PatternMatch(s)
    ensures ValidEmail(ToLower(s)) == ValidEmail(s)
  {
    var l := ToLower(s);
    ScanIgnoresCase(Start, s);
    ScanLanguage(Start, s);
    ScanLanguage(Start, l);
    ShapeIsStartLanguage(s);
    ShapeIsStartLanguage(l);
    PatternIffShape(s);
    PatternIffShape(l);
    ValidEmailMeaning(s);
    ValidEmailMeaning(l);
  }

  /** An address without `@` is rejected. */
  lemma NoAtRejected(s: string)
    requires forall i :: 0 <= i < |s| ==> s[i] != '@'
    ensures !ValidEmail(s)
  {
    ValidEmailMeaning(s);
  }

  /** An address with no `.` after its `@` is rejected. */
  lemma NoDotAfterAtRejected(s: string, i: nat)
    requires i < |s| && s[i] == '@'
    requires forall j :: i < j < |s| ==> s[j] != '.'
    ensures !ValidEmail(s)
  {
    ValidEmailMeaning(s);
  }
}
