/**
 * The logic of components/challenge-results.tsx: `parseChallengePart`, the
 * redraw cap that decides which buttons are rendered, the text the copy
 * button puts on the clipboard, and `handleAcceptCombo`.
 */
module ChallengeResults {
  import opened Wrappers
  import opened Separator
  import opened ChallengeData
  import opened Firebase

  /** `{ title, description }`; a missing description is JavaScript's `undefined`. */
  datatype ChallengePart = ChallengePart(title: string, description: Option<string>)

  /** The text of `s` before the first " → ", or all of `s` when it has none. */
  function BeforeArrow(s: string): string {
    match IndexOf(s, Arrow, 0)
    case None => s
    case Some(i) => s[..i]
  }

  /** `const [title, description] = part.split(" → ")`. */
  function ParseChallengePart(part: string): (r: ChallengePart)
    ensures r.title == BeforeArrow(part)
    ensures IndexOf(part, Arrow, 0).None? ==> r.description.None?
    ensures IndexOf(part, Arrow, 0).Some? ==>
      r.description == Some(BeforeArrow(part[IndexOf(part, Arrow, 0).value + |Arrow|..]))
  {
    var pieces := Split(part, Arrow);
    FirstPiecesOfSplit(part);
    ChallengePart(pieces[0], if |pieces| >= 2 then Some(pieces[1]) else None)
  }

  /** The first two pieces of a split on " → ": before the first arrow, and between the first and the next. */
  lemma FirstPiecesOfSplit(s: string)
    ensures Split(s, Arrow)[0] == BeforeArrow(s)
    ensures IndexOf(s, Arrow, 0).None? ==> |Split(s, Arrow)| == 1
    ensures IndexOf(s, Arrow, 0).Some? ==>
      |Split(s, Arrow)| >= 2 && Split(s, Arrow)[1] == BeforeArrow(s[IndexOf(s, Arrow, 0).value + |Arrow|..])
  {
    if IndexOf(s, Arrow, 0).Some? {
      var rest := s[IndexOf(s, Arrow, 0).value + |Arrow|..];
      assert Split(rest, Arrow)[0] == BeforeArrow(rest);
    }
  }

  /** A string with exactly one " → " parses into the text before it and the text after it. */
  lemma ParseOneArrow(s: string, i: nat)
    requires OccursOnlyAt(s, Arrow, i)
    ensures ParseChallengePart(s) == ChallengePart(s[..i], Some(s[i + |Arrow|..]))
    ensures s == s[..i] + Arrow + s[i + |Arrow|..]
  {
    SplitOnlyOccurrence(s, Arrow, i);
    assert s[i..i + |Arrow|] == Arrow;
  }

  /** Parsing undoes `Entry`: title + " → " + description gives back the title and description. */
  lemma ParseEntry(p: Part)
    ensures ParseChallengePart(Entry(p)) == ChallengePart(p.0, Some(p.1))
  {
    var e := Entry(p);
    EntryHasOneArrow(p);
    ParseOneArrow(e, |p.0|);
    assert e[..|p.0|] == p.0;
    assert e[|p.0| + |Arrow|..] == p.1;
  }

  /** Every catalog string parses into a title and a description that rebuild it. */
  lemma ParseCatalogEntry(e: string)
    requires e in CoreConstraints || e in LineBudgets || e in ProjectDomains
    ensures ParseChallengePart(e).description.Some?
    ensures ParseChallengePart(e).title + Arrow + ParseChallengePart(e).description.value == e
  {
    CatalogEntryHasOneArrow(e);
    var p: Part :| e == Entry(p) && OccursOnlyAt(e, Arrow, |p.0|);
    ParseEntry(p);
  }

  /** `isLastAttempt`: the "attempts left" count `3 - playCount` would no longer be positive. */
  predicate IsLastAttempt(playCount: int): (last: bool)
    ensures last <==> 3 - playCount <= 0
    ensures !last ==> 3 - playCount >= 1
  {
    playCount >= 3
  }

  /** The buttons of the results view: redraw (with its "attempts left" count) only before the last attempt, accept and copy always. */
  datatype Controls = Controls(redraw: Option<int>, accept: bool, copy: bool)

  /** The button row rendered for `playCount`. */
  function ResultControls(playCount: int): (c: Controls)
    ensures c.redraw.Some? <==> playCount < 3
    ensures c.redraw.Some? ==> c.redraw.value == 3 - playCount >= 1
    ensures c.accept && c.copy
  {
    if !IsLastAttempt(playCount) then Controls(Some(3 - playCount), true, true)
    else Controls(None, true, true)
  }

  const CopyHeader: Text := "Code Olympics Challenge:"
  const ConstraintLabel: Text := "Core Constraint: "
  const BudgetLabel: Text := "Line Budget: "
  const DomainLabel: Text := "Project Domain: "

  /** The text the copy button writes to the clipboard: a header, a blank line and one labelled line per field. */
  function CopyText(c: Challenge): (text: string)
    ensures text == Join([CopyHeader, "", ConstraintLabel + c.constraint, BudgetLabel + c.budget, DomainLabel + c.domain], "\n")
  {
    var a, b, d := ConstraintLabel + c.constraint, BudgetLabel + c.budget, DomainLabel + c.domain;
    JoinFiveLines(CopyHeader, "", a, b, d);
    CopyHeader + "\n\n" + ConstraintLabel + c.constraint + "\n" + BudgetLabel + c.budget + "\n" + DomainLabel + c.domain
  }

  /** Five lines joined by line breaks. */
  lemma JoinFiveLines(l0: string, l1: string, l2: string, l3: string, l4: string)
    ensures Join([l0, l1, l2, l3, l4], "\n") == l0 + "\n" + l1 + "\n" + l2 + "\n" + l3 + "\n" + l4
  {
    assert Join([l4], "\n") == l4;
    assert Join([l3, l4], "\n") == l3 + "\n" + l4;
    assert Join([l2, l3, l4], "\n") == l2 + "\n" + (l3 + "\n" + l4);
    assert Join([l1, l2, l3, l4], "\n") == l1 + "\n" + (l2 + "\n" + (l3 + "\n" + l4));
  }

  /** `s` starts with `prefix`. */
  predicate StartsWith(s: string, prefix: string) {
    |prefix| <= |s| && s[..|prefix|] == prefix
  }

  /** Reads a challenge back from its copy text: the inverse of `CopyText`. */
  function ParseCopyText(text: string): Option<Challenge> {
    var lines := Split(text, "\n");
    if |lines| == 5 && lines[0] == CopyHeader && lines[1] == ""
       && StartsWith(lines[2], ConstraintLabel) && StartsWith(lines[3], BudgetLabel) && StartsWith(lines[4], DomainLabel)
    then Some(Challenge(lines[2][|ConstraintLabel|..], lines[3][|BudgetLabel|..], lines[4][|DomainLabel|..]))
    else None
  }

  /** A challenge whose fields hold no line break is read back exactly from its copy text. */
  lemma CopyTextRoundTrip(c: Challenge)
    requires '\n' !in c.constraint && '\n' !in c.budget && '\n' !in c.domain
    ensures ParseCopyText(CopyText(c)) == Some(c)
  {
    var lines := [CopyHeader, "", ConstraintLabel + c.constraint, BudgetLabel + c.budget, DomainLabel + c.domain];
    assert Marker("\n", 0);
    SplitJoin(lines, "\n", 0);
    assert lines[2][..|ConstraintLabel|] == ConstraintLabel && lines[2][|ConstraintLabel|..] == c.constraint;
    assert lines[3][..|BudgetLabel|] == BudgetLabel && lines[3][|BudgetLabel|..] == c.budget;
    assert lines[4][..|DomainLabel|] == DomainLabel && lines[4][|DomainLabel|..] == c.domain;
  }

  /** Every drawn challenge survives the clipboard: its copy text reads back as the same challenge. */
  lemma DrawnChallengeCopyRoundTrip(r1: real, r2: real, r3: real)
    requires 0.0 <= r1 < 1.0 && 0.0 <= r2 < 1.0 && 0.0 <= r3 < 1.0
    ensures ParseCopyText(CopyText(GenerateRandomChallenge(r1, r2, r3))) == Some(GenerateRandomChallenge(r1, r2, r3))
  {
    var c := GenerateRandomChallenge(r1, r2, r3);
    CatalogHasNoLineBreak(c.constraint);
    CatalogHasNoLineBreak(c.budget);
    CatalogHasNoLineBreak(c.domain);
    CopyTextRoundTrip(c);
  }

  /** No catalog string holds a line break. */
  lemma CatalogHasNoLineBreak(e: string)
    requires e in CoreConstraints || e in LineBudgets || e in ProjectDomains
    ensures '\n' !in e
  {
    CatalogEntryHasOneArrow(e);
    var p: Part :| e == Entry(p) && OccursOnlyAt(e, Arrow, |p.0|);
    assert '\n' !in Arrow;
  }

  /** `handleAcceptCombo`: saves the shown challenge, unmodified, for the current user's email. */
  method HandleAcceptCombo(store: Store, userEmail: string, challenge: Challenge, fails: bool)
    modifies store`participants
    ensures store.participants ==
      if store.Enabled() && !fails then SaveComboFirst(old(store.participants), userEmail, challenge)
      else old(store.participants)
  {
    store.SaveAcceptedCombo(userEmail, challenge, fails);
  }
}
