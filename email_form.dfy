/**
 * The sign-up form of components/email-form.tsx. On submit it looks the
 * email up in the "participants" collection; a known email is turned away
 * with its saved combination, a new one is added with a zero play count and
 * handed on to the challenge page. Thrown Firestore errors are a `Fault`
 * parameter.
 */
module EmailForm {
  import opened Wrappers
  import opened ChallengeData
  import opened Firebase

  const ConfigError: string := "Firebase is not configured. Please check your environment variables."
  const AlreadyPlayedError: string := "You've already played the game! Each user can only play once!"
  const GenericError: string := "Something went wrong. Please try again."

  /** Where the submission throws, if it does: at `getDocs` or at `addDoc`. */
  datatype Fault = NoFault | LookupThrows | InsertThrows

  /** The document `addDoc` creates (without its timestamp). */
  function NewParticipant(email: string, discordUsername: string): (p: Participant)
    ensures p.email == email && p.discordUsername == discordUsername
    ensures p.playCount == 0 && p.acceptedCombo.None? && !p.hasPlayed
    ensures FirstMatch([p], email) == Some(0)
  {
    Participant(email, discordUsername, 0, None, false)
  }

  /**
   * What a submission leaves behind: the collection, the error shown, the
   * saved combination shown, and the `(email, discordUsername)` passed to
   * `onEmailSubmitted`, if it was called.
   */
  datatype Outcome = Outcome(
    participants: seq<Participant>,
    error: string,
    acceptedCombo: Option<Challenge>,
    handoff: Option<(string, string)>)

  /** `handleSubmit` on the collection `ps`, with `db` set or not. */
  function Submit(ps: seq<Participant>, db: bool, email: string, discordUsername: string, fault: Fault): (o: Outcome)
    ensures o.participants == ps || o.participants == ps + [NewParticipant(email, discordUsername)]
    ensures o.handoff.Some? <==> o.participants != ps
    ensures o.handoff.Some? <==> db && FirstMatch(ps, email).None? && fault == NoFault
    ensures o.handoff.Some? ==> o.handoff.value == (email, discordUsername) && o.error == ""
    ensures o.handoff.None? ==> o.error in {ConfigError, AlreadyPlayedError, GenericError}
    ensures !db ==> o.error == ConfigError
    ensures o.error == AlreadyPlayedError <==> db && fault != LookupThrows && FirstMatch(ps, email).Some?
    ensures db && fault == LookupThrows ==> o.error == GenericError
    ensures db && fault == InsertThrows && FirstMatch(ps, email).None? ==> o.error == GenericError
    ensures o.error == AlreadyPlayedError ==> o.acceptedCombo == ps[FirstMatch(ps, email).value].acceptedCombo
    ensures o.acceptedCombo.Some? ==> o.error == AlreadyPlayedError
  {
    if !db then Outcome(ps, ConfigError, None, None)
    else if fault == LookupThrows then Outcome(ps, GenericError, None, None)
    else match FirstMatch(ps, email)
      case Some(i) => Outcome(ps, AlreadyPlayedError, ps[i].acceptedCombo, None)
      case None =>
        if fault == InsertThrows then Outcome(ps, GenericError, None, None)
        else assert fault.NoFault?; Outcome(ps + [NewParticipant(email, discordUsername)], "", None, Some((email, discordUsername)))
  }

  /** The first match of an email in a collection with one record appended. */
  lemma {:induction false} FirstMatchAppend(ps: seq<Participant>, p: Participant, email: string)
    ensures FirstMatch(ps + [p], email) ==
      if FirstMatch(ps, email).Some? then FirstMatch(ps, email)
      else if p.email == email then Some(|ps|) else None
  {
    var qs := ps + [p];
    assert forall j :: 0 <= j < |ps| ==> qs[j] == ps[j];
    assert qs[|ps|] == p;
  }

  /** A new participant is found by the helpers afterwards, with a zero play count and no combination. */
  lemma NewParticipantFound(ps: seq<Participant>, email: string, discordUsername: string)
    requires Submit(ps, true, email, discordUsername, NoFault).handoff.Some?
    ensures var qs := Submit(ps, true, email, discordUsername, NoFault).participants;
      && FirstMatch(qs, email) == Some(|ps|)
      && qs[|ps|].playCount == 0 && qs[|ps|].acceptedCombo.None? && !qs[|ps|].hasPlayed
  {
    FirstMatchAppend(ps, NewParticipant(email, discordUsername), email);
  }

  /** Once an email is registered, every later submission with it is turned away, whatever the Discord name. */
  lemma SecondSubmissionTurnedAway(ps: seq<Participant>, email: string, name1: string, name2: string, fault: Fault)
    requires Submit(ps, true, email, name1, NoFault).handoff.Some?
    ensures var o := Submit(Submit(ps, true, email, name1, NoFault).participants, true, email, name2, fault);
      && o.handoff.None?
      && (fault != LookupThrows ==> o.error == AlreadyPlayedError)
  {
    NewParticipantFound(ps, email, name1);
  }

  /** The form adds a record only for an email the collection lacks, so emails stay unique. */
  lemma SubmitKeepsEmailsUnique(ps: seq<Participant>, db: bool, email: string, discordUsername: string, fault: Fault)
    requires UniqueEmails(ps)
    ensures UniqueEmails(Submit(ps, db, email, discordUsername, fault).participants)
  {
    var qs := Submit(ps, db, email, discordUsername, fault).participants;
    if qs != ps {
      assert forall j :: 0 <= j < |ps| ==> qs[j] == ps[j] && ps[j].email != email;
    }
  }

  /**
   * The form tests only `db`, which the bypass leaves null: with `DEV_BYPASS`
   * as shipped every submission ends with the configuration error and nobody
   * is handed on.
   */
  lemma BypassRejectsEverySubmission(
    ps: seq<Participant>, apiKey: Option<string>, initThrows: bool,
    email: string, discordUsername: string, fault: Fault)
    ensures var o := Submit(ps, DbInitialised(DEV_BYPASS, apiKey, initThrows), email, discordUsername, fault);
      o.error == ConfigError && o.handoff.None? && o.participants == ps
  {
  }

  /** The form component with its state. */
  class Form {
    var email: string
    var discordUsername: string
    var isLoading: bool
    var error: string
    var acceptedCombo: Option<Challenge>

    constructor ()
      ensures email == "" && discordUsername == "" && !isLoading && error == "" && acceptedCombo.None?
    {
      email, discordUsername, isLoading, error, acceptedCombo := "", "", false, "", None;
    }

    /** The email input's `onChange`. */
    method SetEmail(value: string)
      modifies this`email
      ensures email == value
    {
      email := value;
    }

    /** The Discord username input's `onChange`. */
    method SetDiscordUsername(value: string)
      modifies this`discordUsername
      ensures discordUsername == value
    {
      discordUsername := value;
    }

    /**
     * `handleSubmit`: the collection, the error and the combination shown
     * are those of `Submit`, `handoff` is the call to `onEmailSubmitted`,
     * and the form stops loading.
     */
    method HandleSubmit(store: Store, fault: Fault) returns (handoff: Option<(string, string)>)
      modifies this`isLoading, this`error, this`acceptedCombo, store`participants
      ensures var o := Submit(old(store.participants), store.db, email, discordUsername, fault);
        && store.participants == o.participants
        && error == o.error
        && acceptedCombo == o.acceptedCombo
        && handoff == o.handoff
      ensures !isLoading
    {
      isLoading := true;
      error := "";
      acceptedCombo := None;
      handoff := None;
      if !store.db {
        error := ConfigError;
        isLoading := false;
        return;
      }
      if fault == LookupThrows {
        error := GenericError;
        isLoading := false;
        return;
      }
      var found := FirstMatch(store.participants, email);
      if found.Some? {
        acceptedCombo := store.participants[found.value].acceptedCombo;
        error := AlreadyPlayedError;
        isLoading := false;
        return;
      }
      if fault == InsertThrows {
        error := GenericError;
        isLoading := false;
        return;
      }
      store.participants := store.participants + [NewParticipant(email, discordUsername)];
      handoff := Some((email, discordUsername));
      isLoading := false;
    }
  }
}
