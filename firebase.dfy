/**
 * The participant store of lib/firebase.ts. The Firestore "participants"
 * collection is a sequence of records; `query(... where("email", "==", e))`
 * followed by `docs[0]` is the first record whose email is `e`.
 */
module Firebase {
  import opened Wrappers
  import opened ChallengeData

  /** `DEV_BYPASS` as lib/firebase.ts sets it. */
  const DEV_BYPASS: bool := true

  /** A document of the collection (its creation timestamp is not modelled). */
  datatype Participant = Participant(
    email: string,
    discordUsername: string,
    playCount: int,
    acceptedCombo: Option<Challenge>,
    hasPlayed: bool)

  /** No two records share an email. */
  ghost predicate UniqueEmails(ps: seq<Participant>) {
    forall i, j :: 0 <= i < j < |ps| ==> ps[i].email != ps[j].email
  }

  /** The position of the first record whose email is `email`: `querySnapshot.docs[0]`. */
  function FirstMatch(ps: seq<Participant>, email: string): (r: Option<nat>)
    ensures r.Some? ==> r.value < |ps| && ps[r.value].email == email
    ensures r.Some? ==> forall j :: 0 <= j < r.value ==> ps[j].email != email
    ensures r.None? <==> forall j :: 0 <= j < |ps| ==> ps[j].email != email
  {
    if ps == [] then None
    else if ps[0].email == email then Some(0)
    else match FirstMatch(ps[1..], email)
      case None => None
      case Some(i) => Some(i + 1)
  }

  /** Two collections with the same emails in the same order have the same first matches. */
  lemma FirstMatchFollowsEmails(ps: seq<Participant>, qs: seq<Participant>, email: string)
    requires |ps| == |qs| && forall j :: 0 <= j < |ps| ==> ps[j].email == qs[j].email
    ensures FirstMatch(qs, email) == FirstMatch(ps, email)
  {
    var a, b := FirstMatch(ps, email), FirstMatch(qs, email);
    if a.Some? && b.Some? {
      assert !(a.value < b.value) && !(b.value < a.value);
    }
  }

  /** The collection after `updateDoc(docs[0].ref, { playCount: increment(1) })`. */
  function IncrementFirst(ps: seq<Participant>, email: string): (r: seq<Participant>)
    ensures |r| == |ps|
    ensures forall j :: 0 <= j < |ps| ==>
      r[j] == ps[j].(playCount := ps[j].playCount + if FirstMatch(ps, email) == Some(j) then 1 else 0)
  {
    match FirstMatch(ps, email)
    case None => ps
    case Some(i) => ps[i := ps[i].(playCount := ps[i].playCount + 1)]
  }

  /** The collection after `updateDoc(docs[0].ref, { acceptedCombo: combo, hasPlayed: true })`. */
  function SaveComboFirst(ps: seq<Participant>, email: string, combo: Challenge): (r: seq<Participant>)
    ensures |r| == |ps|
    ensures forall j :: 0 <= j < |ps| ==>
      r[j] == if FirstMatch(ps, email) == Some(j) then ps[j].(acceptedCombo := Some(combo), hasPlayed := true) else ps[j]
  {
    match FirstMatch(ps, email)
    case None => ps
    case Some(i) => ps[i := ps[i].(acceptedCombo := Some(combo), hasPlayed := true)]
  }

  /** Incrementing adds one to the matched record's count, as a later lookup sees it, and no other lookup changes. */
  lemma IncrementSeenByLookup(ps: seq<Participant>, email: string, other: string)
    requires FirstMatch(ps, email).Some?
    ensures FirstMatch(IncrementFirst(ps, email), email) == FirstMatch(ps, email)
    ensures IncrementFirst(ps, email)[FirstMatch(ps, email).value].playCount == ps[FirstMatch(ps, email).value].playCount + 1
    ensures other != email ==> FirstMatch(IncrementFirst(ps, email), other) == FirstMatch(ps, other)
    ensures other != email && FirstMatch(ps, other).Some? ==>
      IncrementFirst(ps, email)[FirstMatch(ps, other).value] == ps[FirstMatch(ps, other).value]
  {
    var r := IncrementFirst(ps, email);
    FirstMatchFollowsEmails(ps, r, email);
    FirstMatchFollowsEmails(ps, r, other);
  }

  /** Saving the same combo twice has the effect of saving it once. */
  lemma {:induction false} SaveComboIdempotent(ps: seq<Participant>, email: string, combo: Challenge)
    ensures SaveComboFirst(SaveComboFirst(ps, email, combo), email, combo) == SaveComboFirst(ps, email, combo)
  {
    var once := SaveComboFirst(ps, email, combo);
    FirstMatchFollowsEmails(ps, once, email);
    assert SaveComboFirst(once, email, combo) == once;
  }

  /** Neither update touches an email, so a collection without duplicate emails keeps that property. */
  lemma UpdatesKeepEmailsUnique(ps: seq<Participant>, email: string, combo: Challenge)
    requires UniqueEmails(ps)
    ensures UniqueEmails(IncrementFirst(ps, email))
    ensures UniqueEmails(SaveComboFirst(ps, email, combo))
  {
    var a, b := IncrementFirst(ps, email), SaveComboFirst(ps, email, combo);
    assert forall j :: 0 <= j < |ps| ==> a[j].email == ps[j].email && b[j].email == ps[j].email;
  }

  /** Whether module initialisation leaves `db` set: `if (!DEV_BYPASS && firebaseConfig.apiKey)` and no exception. */
  predicate DbInitialised(devBypass: bool, apiKey: Option<string>, initThrows: bool): (ok: bool)
    ensures ok ==> !devBypass && apiKey.Some? && apiKey.value != "" && !initThrows
    ensures !devBypass && apiKey.Some? && apiKey.value != "" && !initThrows ==> ok
  {
    !devBypass && apiKey.Some? && apiKey.value != "" && !initThrows
  }

  /**
   * The module state of lib/firebase.ts: the `DEV_BYPASS` switch, whether
   * `db` was initialised, and the collection `db` gives access to. Transport
   * failures are a `fails` parameter of each call.
   */
  class Store {
    const devBypass: bool
    /** `db != null` */
    const db: bool
    var participants: seq<Participant>

    /** Module initialisation: `db` is set only without the bypass, with an API key, and when initialising does not throw. */
    constructor (devBypass: bool, apiKey: Option<string>, initThrows: bool, participants: seq<Participant>)
      ensures this.devBypass == devBypass
      ensures db == DbInitialised(devBypass, apiKey, initThrows)
      ensures db ==> !devBypass && apiKey.Some? && apiKey.value != ""
      ensures this.participants == participants
    {
      this.devBypass := devBypass;
      this.db := DbInitialised(devBypass, apiKey, initThrows);
      this.participants := participants;
    }

    /** The helpers go past their `if (DEV_BYPASS || !db) return` guard. */
    predicate Enabled(): (enabled: bool)
      reads this
      ensures enabled ==> !devBypass && db
      ensures devBypass || !db ==> !enabled
    {
      !devBypass && db
    }

    /** `getUserData`: the first record with the email, or null when bypassed, failing or absent. */
    function GetUserData(email: string, fails: bool): (r: Option<Participant>)
      reads this
      ensures r.Some? <==> Enabled() && !fails && FirstMatch(participants, email).Some?
      ensures r.Some? ==> r.value == participants[FirstMatch(participants, email).value]
    {
      if !Enabled() || fails then None
      else match FirstMatch(participants, email)
        case None => None
        case Some(i) => Some(participants[i])
    }

    /** `incrementPlayCount`: errors are caught and logged, so a failing call changes nothing. */
    method IncrementPlayCount(email: string, fails: bool)
      modifies this`participants
      ensures participants == if Enabled() && !fails then IncrementFirst(old(participants), email) else old(participants)
    {
      if !Enabled() || fails {
        return;
      }
      participants := IncrementFirst(participants, email);
    }

    /** `saveAcceptedCombo`: errors are caught and logged, so a failing call changes nothing. */
    method SaveAcceptedCombo(email: string, combo: Challenge, fails: bool)
      modifies this`participants
      ensures participants == if Enabled() && !fails then SaveComboFirst(old(participants), email, combo) else old(participants)
    {
      if !Enabled() || fails {
        return;
      }
      participants := SaveComboFirst(participants, email, combo);
    }
  }

  /** With the bypass on, as shipped, `db` stays null and every helper is a no-op. */
  lemma BypassDisablesStore(s: Store)
    requires s.devBypass == DEV_BYPASS
    ensures !s.Enabled()
    ensures forall email: string, fails: bool :: s.GetUserData(email, fails) == None
  {
  }
}
