/**
 * The challenge page of components/challenge-visualizer.tsx: its React state
 * (`isAnimating`, `challenge`, `playCount`), the two buttons it renders, and
 * the session a participant drives by clicking them. `Math.random` is given
 * as the three reals the 3-second timeout draws with.
 */
module ChallengeVisualizer {
  import opened Wrappers
  import opened ChallengeData
  import opened Firebase
  import opened ChallengeResults

  /** The page's React state. */
  datatype Session = Session(isAnimating: bool, challenge: Option<Challenge>, playCount: int)

  /** `useState(false)`, `useState(null)`, `useState(0)`. */
  function Initial(): (s: Session)
    ensures ShowsGenerateButton(s) && !ShowsResults(s)
    ensures s.playCount == 0
  {
    Session(false, None, 0)
  }

  /** `setPlayCount(data?.playCount || 0)` once `getUserData` resolves. */
  function Loaded(s: Session, data: Option<Participant>): (r: Session)
    ensures r.isAnimating == s.isAnimating && r.challenge == s.challenge
    ensures data.None? ==> r.playCount == 0
    ensures data.Some? ==> r.playCount == data.value.playCount
  {
    s.(playCount := if data.Some? then data.value.playCount else 0)
  }

  /** `handleGenerateChallenge` up to the timeout: one more play, animation on, previous challenge cleared. */
  function Generated(s: Session): (r: Session)
    ensures r.isAnimating && r.challenge.None?
    ensures r.playCount == s.playCount + 1
  {
    Session(true, None, s.playCount + 1)
  }

  /** The timeout callback: the drawn challenge is shown and the animation stops. */
  function AnimationDone(s: Session, c: Challenge): (r: Session)
    ensures !r.isAnimating && r.challenge == Some(c)
    ensures r.playCount == s.playCount
  {
    s.(isAnimating := false, challenge := Some(c))
  }

  /** `!challenge && !isAnimating`: the "Generate My Challenge" button is rendered. */
  predicate ShowsGenerateButton(s: Session): (shown: bool)
    ensures shown ==> !s.isAnimating && s.challenge.None?
    ensures !s.isAnimating && s.challenge.None? ==> shown
  {
    s.challenge.None? && !s.isAnimating
  }

  /** `challenge && !isAnimating`: the results are rendered. */
  predicate ShowsResults(s: Session): (shown: bool)
    ensures shown ==> !s.isAnimating && s.challenge.Some?
    ensures !s.isAnimating && s.challenge.Some? ==> shown
  {
    s.challenge.Some? && !s.isAnimating
  }

  /** At most one of the two is rendered, and neither while the cube animates. */
  lemma GuardsExclusive(s: Session)
    ensures !(ShowsGenerateButton(s) && ShowsResults(s))
    ensures s.isAnimating ==> !ShowsGenerateButton(s) && !ShowsResults(s)
    ensures !s.isAnimating ==> ShowsGenerateButton(s) || ShowsResults(s)
  {
  }

  /** What can happen on the page: a click on one of its buttons, or the end of the animation timeout. */
  datatype Event =
    | Generate                                  // "Generate My Challenge"
    | Redraw                                    // "Decline & Try Again"
    | AnimationEnd(r1: real, r2: real, r3: real) // the 3-second timeout fires
    | Accept                                    // either "Accept" button

  /** The button for `e` is on screen (or, for the timeout, one is pending). */
  predicate Offered(s: Session, e: Event): (ok: bool)
    ensures e.Generate? ==> (ok <==> ShowsGenerateButton(s))
    ensures e.Redraw? ==> (ok <==> ShowsResults(s) && s.playCount < 3)
    ensures e.Accept? ==> (ok <==> ShowsResults(s))
    ensures e.AnimationEnd? && ok ==> s.isAnimating
    ensures ok && !e.AnimationEnd? ==> !s.isAnimating
  {
    match e
    case Generate => ShowsGenerateButton(s)
    case Redraw => ShowsResults(s) && ResultControls(s.playCount).redraw.Some?
    case AnimationEnd(r1, r2, r3) =>
      s.isAnimating && 0.0 <= r1 < 1.0 && 0.0 <= r2 < 1.0 && 0.0 <= r3 < 1.0
    case Accept => ShowsResults(s) && ResultControls(s.playCount).accept
  }

  /** The page's state after `e`. Accepting writes to the store only, so the page itself stays as it is. */
  function Apply(s: Session, e: Event): (r: Session)
    requires Offered(s, e)
    ensures e.Generate? || e.Redraw? ==> r.isAnimating && r.challenge.None? && r.playCount == s.playCount + 1
    ensures e.AnimationEnd? ==> ShowsResults(r) && r.playCount == s.playCount && FromCatalog(r.challenge.value)
    ensures e.Accept? ==> r == s
  {
    match e
    case Generate => Generated(s)
    case Redraw => Generated(s)
    case AnimationEnd(r1, r2, r3) => AnimationDone(s, GenerateRandomChallenge(r1, r2, r3))
    case Accept => s
  }

  /** The page after the events `es`, or None when one of them is not offered when it comes. */
  function Run(s: Session, es: seq<Event>): Option<Session>
    decreases |es|
  {
    if es == [] then Some(s)
    else if !Offered(s, es[0]) then None
    else Run(Apply(s, es[0]), es[1..])
  }

  /** The number of draws the events start (each one increments the play count). */
  function Generations(es: seq<Event>): (n: nat)
    ensures n <= |es|
    decreases |es|
  {
    if es == [] then 0
    else (if es[0].Generate? || es[0].Redraw? then 1 else 0) + Generations(es[1..])
  }

  function Max(a: int, b: int): int {
    if a >= b then a else b
  }

  /**
   * The draws still available from `s`: before the first draw the button is
   * shown regardless of the count, afterwards "Decline & Try Again" only
   * while the count is below three.
   */
  function Remaining(s: Session): int {
    if ShowsGenerateButton(s) then Max(1, 3 - s.playCount) else Max(0, 3 - s.playCount)
  }

  /** Every draw adds one to the page's play count, and nothing else changes it. */
  lemma {:induction false} PlayCountCountsDraws(s: Session, es: seq<Event>)
    requires Run(s, es).Some?
    ensures Run(s, es).value.playCount == s.playCount + Generations(es)
    decreases |es|
  {
    if es != [] {
      PlayCountCountsDraws(Apply(s, es[0]), es[1..]);
    }
  }

  /** No sequence of clicks starts more draws than `Remaining` allows. */
  lemma {:induction false} DrawsWithinRemaining(s: Session, es: seq<Event>)
    requires Run(s, es).Some?
    ensures Generations(es) <= Remaining(s)
    decreases |es|
  {
    if es != [] {
      var next := Apply(s, es[0]);
      DrawsWithinRemaining(next, es[1..]);
      assert !ShowsGenerateButton(next);
    }
  }

  /**
   * A participant whose stored count is `p` gets at most `max(1, 3 - p)`
   * draws in one visit: three for a new participant.
   */
  lemma AtMostThreeDraws(data: Option<Participant>, es: seq<Event>)
    requires Run(Loaded(Initial(), data), es).Some?
    ensures data.None? ==> Generations(es) <= 3
    ensures data.Some? ==> Generations(es) <= Max(1, 3 - data.value.playCount)
  {
    DrawsWithinRemaining(Loaded(Initial(), data), es);
  }

  /** A new participant can indeed draw three times, and then the redraw button is gone. */
  lemma ThreeDrawsReachable()
    ensures var es := [Generate, AnimationEnd(0.0, 0.0, 0.0), Redraw, AnimationEnd(0.0, 0.0, 0.0),
                       Redraw, AnimationEnd(0.0, 0.0, 0.0)];
      && Run(Initial(), es).Some?
      && Generations(es) == 3
      && !Offered(Run(Initial(), es).value, Redraw)
      && Offered(Run(Initial(), es).value, Accept)
  {
    var e := AnimationEnd(0.0, 0.0, 0.0);
    var s1 := Apply(Initial(), Generate);
    var s2 := Apply(s1, e);
    var s3 := Apply(s2, Redraw);
    var s4 := Apply(s3, e);
    var s5 := Apply(s4, Redraw);
    var s6 := Apply(s5, e);
    assert s6.playCount == 3;
    assert Run(s6, []) == Some(s6);
    assert Run(s5, [e]) == Some(s6);
    assert Run(s4, [Redraw, e]) == Some(s6);
    assert Run(s3, [e, Redraw, e]) == Some(s6);
    assert Run(s2, [Redraw, e, Redraw, e]) == Some(s6);
    assert Run(s1, [e, Redraw, e, Redraw, e]) == Some(s6);
  }

  /** The challenge on screen is always one the catalog can produce. */
  ghost predicate FromCatalog(c: Challenge) {
    c.constraint in CoreConstraints && c.budget in LineBudgets && c.domain in ProjectDomains
  }

  /** Whatever the clicks, a challenge shown on the page is a combination of catalog entries. */
  lemma {:induction false} ShownChallengeFromCatalog(s: Session, es: seq<Event>)
    requires s.challenge.Some? ==> FromCatalog(s.challenge.value)
    requires Run(s, es).Some?
    ensures Run(s, es).value.challenge.Some? ==> FromCatalog(Run(s, es).value.challenge.value)
    decreases |es|
  {
    if es != [] {
      ShownChallengeFromCatalog(Apply(s, es[0]), es[1..]);
    }
  }

  /** Accepting leaves the page as it is: on a draw before the third the redraw button stays offered. */
  lemma RedrawStillOfferedAfterAccept(s: Session)
    requires Offered(s, Accept) && s.playCount < 3
    ensures Offered(Apply(s, Accept), Redraw)
  {
  }

  /**
   * The generate button does not look at the play count: a returning
   * participant whose stored count is already 3 or more still gets a draw.
   */
  lemma ReturningParticipantDrawsAgain(p: Participant)
    ensures Run(Loaded(Initial(), Some(p)), [Generate]).Some?
    ensures Generations([Generate]) == 1
  {
    var s := Loaded(Initial(), Some(p));
    assert Run(Apply(s, Generate), []) == Some(Apply(s, Generate));
  }

  /**
   * With the bypass, `getUserData` returns null, so every visit starts from a
   * count of 0 and allows three draws again.
   */
  lemma BypassVisitAllowsThreeDraws(store: Store, email: string, fails: bool)
    requires store.devBypass
    ensures Loaded(Initial(), store.GetUserData(email, fails)).playCount == 0
    ensures Remaining(Loaded(Initial(), store.GetUserData(email, fails))) == 3
  {
  }

  /** The page component with its state; `userData` is kept but only read for the play count. */
  class Visualizer {
    const userEmail: string
    var isAnimating: bool
    var challenge: Option<Challenge>
    var playCount: int
    var userData: Option<Participant>

    function State(): Session
      reads this
    {
      Session(isAnimating, challenge, playCount)
    }

    /** Mounting, before the `useEffect` that loads the participant's data. */
    constructor (userEmail: string)
      ensures this.userEmail == userEmail
      ensures State() == Initial() && userData == None
    {
      this.userEmail := userEmail;
      isAnimating, challenge, playCount, userData := false, None, 0, None;
    }

    /** `loadUserData`: the stored record, and its play count or 0. */
    method LoadUserData(store: Store, fails: bool)
      modifies this
      ensures userData == store.GetUserData(userEmail, fails)
      ensures State() == Loaded(old(State()), userData)
    {
      var data := store.GetUserData(userEmail, fails);
      userData := data;
      playCount := if data.Some? then data.value.playCount else 0;
    }

    /** `handleGenerateChallenge` up to its timeout: the stored count is incremented and the page count follows. */
    method HandleGenerateChallenge(store: Store, fails: bool)
      modifies this, store`participants
      ensures store.participants ==
        if store.Enabled() && !fails then IncrementFirst(old(store.participants), userEmail) else old(store.participants)
      ensures State() == Generated(old(State()))
      ensures userData == old(userData)
    {
      store.IncrementPlayCount(userEmail, fails);
      playCount := playCount + 1;
      isAnimating := true;
      challenge := None;
    }

    /** The timeout callback: `generateRandomChallenge()` is shown and the animation stops. */
    method FinishAnimation(r1: real, r2: real, r3: real)
      requires 0.0 <= r1 < 1.0 && 0.0 <= r2 < 1.0 && 0.0 <= r3 < 1.0
      modifies this
      ensures State() == AnimationDone(old(State()), GenerateRandomChallenge(r1, r2, r3))
      ensures userData == old(userData)
    {
      challenge := Some(GenerateRandomChallenge(r1, r2, r3));
      isAnimating := false;
    }
  }
}
