/**
 * The e-mail syntax check of the registration form: the regular expression
 *   ^[\w\-\.]+@([\w\-]+\.)+[a-zA-Z]{2,}$
 * written as a deterministic finite automaton over characters, and proved to
 * accept exactly the addresses described by splitting on '@' and on '.'.
 * `\w` is read over ASCII only: letters, digits and '_'.
 */
module EmailSyntax {

  // ---------------------------------------------------------------------
  // Character classes

  predicate IsAsciiLetter(c: char) { 'a' <= c <= 'z' || 'A' <= c <= 'Z' }

  predicate IsAsciiDigit(c: char) { '0' <= c <= '9' }

  /** `\w` over ASCII. */
  predicate IsWordChar(c: char) { IsAsciiLetter(c) || IsAsciiDigit(c) || c == '_' }

  /** `[\w\-\.]`: a character of the part before '@'. */
  predicate IsLocalChar(c: char) { IsWordChar(c) || c == '-' || c == '.' }

  /** `[\w\-]`: a character of a domain label. */
  predicate IsLabelChar(c: char) { IsWordChar(c) || c == '-' }

  /** The three character classes the expression uses. */
  datatype CharClass = LocalClass | LabelClass | LetterClass

  predicate InClass(k: CharClass, c: char)
  {
    match k
    case LocalClass => IsLocalChar(c)
    case LabelClass => IsLabelChar(c)
    case LetterClass => IsAsciiLetter(c)
  }

  /** Every character of `s` is in class `k`. */
  predicate AllIn(k: CharClass, s: string) { forall i | 0 <= i < |s| :: InClass(k, s[i]) }

  lemma AllInCons(k: CharClass, c: char, s: string)
    ensures AllIn(k, [c] + s) <==> InClass(k, c) && AllIn(k, s)
  {
    var t := [c] + s;
    assert t[0] == c;
    if AllIn(k, t) {
      forall i | 0 <= i < |s| ensures InClass(k, s[i]) { assert s[i] == t[i + 1]; }
    }
    if InClass(k, c) && AllIn(k, s) {
      forall i | 0 <= i < |t| ensures InClass(k, t[i]) { if i > 0 { assert t[i] == s[i - 1]; } }
    }
  }

  lemma AllInMember(k: CharClass, s: string, x: char)
    requires AllIn(k, s) && x in s
    ensures InClass(k, x)
  {
    var i :| 0 <= i < |s| && s[i] == x;
  }

  // ---------------------------------------------------------------------
  // Splitting on a separator, and its inverse

  /** The pieces of `s` between occurrences of `sep` (always at least one, possibly empty). */
  function Split(s: string, sep: char): (parts: seq<string>)
    ensures |parts| >= 1
    ensures forall i | 0 <= i < |parts| :: sep !in parts[i]
  {
    if s == [] then [[]]
    else
      var rest := Split(s[1..], sep);
      if s[0] == sep then [[]] + rest
      else [[s[0]] + rest[0]] + rest[1..]
  }

  /** The pieces glued back together with `sep` between them. */
  function Join(parts: seq<string>, sep: char): string
    requires |parts| >= 1
  {
    if |parts| == 1 then parts[0] else parts[0] + [sep] + Join(parts[1..], sep)
  }

  /** Split on a non-empty string, one character at a time. */
  lemma SplitCons(c: char, rest: string, sep: char)
    ensures var r := Split(rest, sep);
            Split([c] + rest, sep) == if c == sep then [[]] + r else [[c] + r[0]] + r[1..]
  {
    assert ([c] + rest)[1..] == rest;
  }

  /** Splitting loses nothing: joining the pieces gives back the input. */
  lemma {:induction false} JoinSplit(s: string, sep: char)
    ensures Join(Split(s, sep), sep) == s
  {
    if s != [] {
      var c, rest := s[0], s[1..];
      assert s == [c] + rest;
      SplitCons(c, rest, sep);
      JoinSplit(rest, sep);
      var r := Split(rest, sep);
      if c != sep {
        var parts := [[c] + r[0]] + r[1..];
        assert parts[1..] == r[1..];
        if |r| > 1 {
          assert Join(r, sep) == r[0] + [sep] + Join(r[1..], sep);
          assert Join(parts, sep) == ([c] + r[0]) + [sep] + Join(r[1..], sep);
        }
      } else {
        assert ([[]] + r)[1..] == r;
      }
    }
  }

  /** There is a single piece exactly when the separator does not occur. */
  lemma {:induction false} SplitSingle(s: string, sep: char)
    ensures |Split(s, sep)| == 1 <==> sep !in s
    ensures sep !in s ==> Split(s, sep) == [s]
  {
    if s != [] {
      var c, rest := s[0], s[1..];
      assert s == [c] + rest;
      SplitCons(c, rest, sep);
      SplitSingle(rest, sep);
    }
  }

  /** Every character other than the separator lies in one of the pieces. */
  lemma {:induction false} SplitCovers(s: string, sep: char, k: nat)
    requires k < |s| && s[k] != sep
    ensures exists i | 0 <= i < |Split(s, sep)| :: s[k] in Split(s, sep)[i]
  {
    var c, rest := s[0], s[1..];
    assert s == [c] + rest;
    SplitCons(c, rest, sep);
    var r := Split(rest, sep);
    if k == 0 {
      assert s[k] in Split(s, sep)[0];
    } else {
      SplitCovers(rest, sep, k - 1);
      var i :| 0 <= i < |r| && rest[k - 1] in r[i];
      if c == sep {
        assert Split(s, sep)[i + 1] == r[i];
      } else if i == 0 {
        assert Split(s, sep)[0] == [c] + r[0];
      } else {
        assert Split(s, sep)[i] == r[i];
      }
    }
  }

  // ---------------------------------------------------------------------
  // The address shape, stated by splitting

  /** Part before '@': one or more of `[\w\-\.]`. */
  predicate IsLocalPart(s: string) { |s| > 0 && AllIn(LocalClass, s) }

  /** A domain label: one or more of `[\w\-]`. */
  predicate IsLabel(s: string) { |s| > 0 && AllIn(LabelClass, s) }

  /** The last label: two or more ASCII letters. */
  predicate IsTopLabel(s: string) { |s| >= 2 && AllIn(LetterClass, s) }

  predicate AllLabels(labels: seq<string>) { forall i | 0 <= i < |labels| :: IsLabel(labels[i]) }

  /** At least two non-empty labels separated by '.', the last of them letters only. */
  predicate IsDomain(d: string)
  {
    var labels := Split(d, '.');
    |labels| >= 2 && AllLabels(labels) && IsTopLabel(labels[|labels| - 1])
  }

  /** `local@domain` with exactly one '@'. */
  predicate IsEmailShape(e: string)
  {
    var parts := Split(e, '@');
    |parts| == 2 && IsLocalPart(parts[0]) && IsDomain(parts[1])
  }

  // ---------------------------------------------------------------------
  // The recognizer

  /** How much of the last label seen so far could still be the top-level label `[a-zA-Z]{2,}`. */
  datatype TopLabel = NotLetters | OneLetter | TwoLetters  // TwoLetters: two or more

  /**
   * Start: nothing read; Local: inside the part before '@';
   * LabelStart: at the start of a domain label; InLabel: inside a domain label.
   * `dotted` records that the domain already holds a '.'.
   */
  datatype State = Start | Local | LabelStart(dotted: bool) | InLabel(dotted: bool, top: TopLabel) | Fail

  function Begin(c: char): TopLabel { if IsAsciiLetter(c) then OneLetter else NotLetters }

  function Advance(t: TopLabel, c: char): TopLabel
  {
    if !IsAsciiLetter(c) then NotLetters
    else match t
      case NotLetters => NotLetters
      case _ => TwoLetters
  }

  function Step(st: State, c: char): State
  {
    match st
    case Start => if IsLocalChar(c) then Local else Fail
    case Local => if c == '@' then LabelStart(false) else if IsLocalChar(c) then Local else Fail
    case LabelStart(dotted) => if IsLabelChar(c) then InLabel(dotted, Begin(c)) else Fail
    case InLabel(dotted, t) =>
      if c == '.' then LabelStart(true)
      else if IsLabelChar(c) then InLabel(dotted, Advance(t, c))
      else Fail
    case Fail => Fail
  }

  function Run(st: State, s: string): State
    decreases |s|
  {
    if s == [] then st else Run(Step(st, s[0]), s[1..])
  }

  predicate Accepting(st: State) { st == InLabel(true, TwoLetters) }

  // ---------------------------------------------------------------------
  // What each state still accepts, stated by splitting

  /** A label that has begun with progress `t` is a top-level label once `rest` is appended. */
  predicate Completes(t: TopLabel, rest: string)
  {
    t != NotLetters && AllIn(LetterClass, rest) && (t == TwoLetters || |rest| >= 1)
  }

  predicate Accepts(st: State, s: string)
  {
    match st
    case Start => IsEmailShape(s)
    case Local =>
      var parts := Split(s, '@');
      |parts| == 2 && AllIn(LocalClass, parts[0]) && IsDomain(parts[1])
    case LabelStart(dotted) =>
      var labels := Split(s, '.');
      AllLabels(labels) && (dotted || |labels| >= 2) && IsTopLabel(labels[|labels| - 1])
    case InLabel(dotted, t) =>
      var labels := Split(s, '.');
      && AllIn(LabelClass, labels[0])
      && AllLabels(labels[1..])
      && (dotted || |labels| >= 2)
      && (if |labels| == 1 then Completes(t, labels[0]) else IsTopLabel(labels[|labels| - 1]))
    case Fail => false
  }

  /** Labels have no '@', so neither has a domain. */
  lemma DomainHasNoAt(d: string)
    requires IsDomain(d)
    ensures '@' !in d
  {
    var labels := Split(d, '.');
    forall k | 0 <= k < |d| ensures d[k] != '@' {
      if d[k] != '.' {
        SplitCovers(d, '.', k);
        var i :| 0 <= i < |labels| && d[k] in labels[i];
        AllInMember(LabelClass, labels[i], d[k]);
      }
    }
  }

  lemma CompletesAdvance(t: TopLabel, c: char, rest: string)
    requires IsLabelChar(c)
    ensures Completes(t, [c] + rest) <==> Completes(Advance(t, c), rest)
  {
    AllInCons(LetterClass, c, rest);
  }

  lemma TopLabelBegin(c: char, rest: string)
    requires IsLabelChar(c)
    ensures IsTopLabel([c] + rest) <==> Completes(Begin(c), rest)
  {
    AllInCons(LetterClass, c, rest);
  }

  lemma AllLabelsCons(l: string, ls: seq<string>)
    ensures AllLabels([l] + ls) <==> IsLabel(l) && AllLabels(ls)
  {
    var t := [l] + ls;
    assert t[0] == l;
    if AllLabels(t) {
      forall i | 0 <= i < |ls| ensures IsLabel(ls[i]) { assert ls[i] == t[i + 1]; }
    }
  }

  lemma StepAcceptsStart(c: char, rest: string)
    ensures Accepts(Start, [c] + rest) <==> Accepts(Step(Start, c), rest)
  {
    SplitCons(c, rest, '@');
    AllInCons(LocalClass, c, Split(rest, '@')[0]);
  }

  lemma StepAcceptsLocal(c: char, rest: string)
    ensures Accepts(Local, [c] + rest) <==> Accepts(Step(Local, c), rest)
  {
    SplitCons(c, rest, '@');
    var r := Split(rest, '@');
    if c == '@' {
      SplitSingle(rest, '@');
      if IsDomain(rest) { DomainHasNoAt(rest); }
      assert ([[]] + r)[1] == r[0];
    } else {
      AllInCons(LocalClass, c, r[0]);
    }
  }

  lemma StepAcceptsLabelStart(dotted: bool, c: char, rest: string)
    ensures Accepts(LabelStart(dotted), [c] + rest) <==> Accepts(Step(LabelStart(dotted), c), rest)
  {
    SplitCons(c, rest, '.');
    var r := Split(rest, '.');
    if c == '.' {
      assert !IsLabel(Split([c] + rest, '.')[0]);
    } else {
      var first := [c] + r[0];
      assert Split([c] + rest, '.') == [first] + r[1..];
      AllLabelsCons(first, r[1..]);
      AllInCons(LabelClass, c, r[0]);
      if IsLabelChar(c) { TopLabelBegin(c, r[0]); }
    }
  }

  lemma StepAcceptsInLabel(dotted: bool, t: TopLabel, c: char, rest: string)
    ensures Accepts(InLabel(dotted, t), [c] + rest) <==> Accepts(Step(InLabel(dotted, t), c), rest)
  {
    SplitCons(c, rest, '.');
    var r := Split(rest, '.');
    if c == '.' {
      assert Split([c] + rest, '.') == [[]] + r;
      assert ([[]] + r)[1..] == r;
    } else {
      var first := [c] + r[0];
      assert Split([c] + rest, '.') == [first] + r[1..];
      assert ([first] + r[1..])[1..] == r[1..];
      AllInCons(LabelClass, c, r[0]);
      if IsLabelChar(c) { CompletesAdvance(t, c, r[0]); }
    }
  }

  /** Reading one character moves to a state that accepts exactly the rest of what the old one accepted. */
  lemma StepAccepts(st: State, c: char, rest: string)
    ensures Accepts(st, [c] + rest) <==> Accepts(Step(st, c), rest)
  {
    match st
    case Fail =>
    case Start => StepAcceptsStart(c, rest);
    case Local => StepAcceptsLocal(c, rest);
    case LabelStart(dotted) => StepAcceptsLabelStart(dotted, c, rest);
    case InLabel(dotted, t) => StepAcceptsInLabel(dotted, t, c, rest);
  }

  /** The automaton run from any state accepts exactly what that state's characterisation describes. */
  lemma {:induction false} RunAccepts(st: State, s: string)
    ensures Accepting(Run(st, s)) <==> Accepts(st, s)
    decreases |s|
  {
    if s == [] {
      assert Split(s, '@') == [[]] && Split(s, '.') == [[]];
    } else {
      var c, rest := s[0], s[1..];
      assert s == [c] + rest;
      RunAccepts(Step(st, c), rest);
      StepAccepts(st, c, rest);
    }
  }

  /** The address a@example.com, used by the alice scenario of `Dashboard.AliceScenario`, is accepted, character by character. */
  lemma ExampleAddressAccepted()
    ensures IsValidEmail("a@example.com")
  {
    var e := "a@example.com";
    assert Run(InLabel(true, TwoLetters), e[12..]) == InLabel(true, TwoLetters);
    assert Run(InLabel(true, OneLetter), e[11..]) == InLabel(true, TwoLetters);
    assert Run(LabelStart(true), e[10..]) == InLabel(true, TwoLetters);
    assert Run(InLabel(false, TwoLetters), e[9..]) == InLabel(true, TwoLetters);
    assert Run(InLabel(false, TwoLetters), e[8..]) == InLabel(true, TwoLetters);
    assert Run(InLabel(false, TwoLetters), e[7..]) == InLabel(true, TwoLetters);
    assert Run(InLabel(false, TwoLetters), e[6..]) == InLabel(true, TwoLetters);
    assert Run(InLabel(false, TwoLetters), e[5..]) == InLabel(true, TwoLetters);
    assert Run(InLabel(false, TwoLetters), e[4..]) == InLabel(true, TwoLetters);
    assert Run(InLabel(false, OneLetter), e[3..]) == InLabel(true, TwoLetters);
    assert Run(LabelStart(false), e[2..]) == InLabel(true, TwoLetters);
    assert Run(Local, e[1..]) == InLabel(true, TwoLetters);
  }

  /** `is_valid_email`: the regular expression, run as an automaton. */
  function IsValidEmail(e: string): (ok: bool)
    ensures ok <==> IsEmailShape(e)
  {
    RunAccepts(Start, e);
    Accepting(Run(Start, e))
  }
}
