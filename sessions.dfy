/**
 * The per-user two-photo session state machine of app.py (image_handler over
 * the process-wide user_sessions dictionary).
 *
 * Handle is the specification of one photo event: the new dictionary and the
 * ordered list of replies and outside calls. Bot.HandlePhoto changes the
 * dictionary in place as the handler does and is proved against Handle. Run
 * folds Handle over a sequence of events delivered one at a time.
 */
module Sessions {
  import opened Wrappers
  import opened TryOn

  /** Telegram user id. */
  type UserId = int

  /** The reply texts of image_handler. */
  const AskGarmentText: string := "Great! Now send the image of the garment you want to try on."
  const ProcessingText: string := "Please wait, processing..."
  const SuccessText: string := "Here is your virtual try-on result!"
  const FailureText: string := "Sorry, something went wrong with the try-on process."
  const RestartText: string := "Please send your image to start the virtual try-on process."

  /**
   * One user's entry: a dictionary that may hold the keys "person_image" and
   * "garment_image", each bound to the Telegram file path of a photo.
   */
  datatype Session = Session(personImage: Option<string>, garmentImage: Option<string>)

  /** What the handler makes happen, in order: a reply to the user or a call of the hand-off. */
  datatype Action =
    | ReplyText(text: string)
    | ReplyPhoto(path: string)
    | External(call: Call)

  /** The dictionary after one event and the actions the event caused. */
  datatype Transition = Transition(sessions: map<UserId, Session>, actions: seq<Action>)

  /** One delivered photo: who sent it, its file path, and what the outside world will report. */
  datatype PhotoEvent = PhotoEvent(user: UserId, filePath: string, services: Services)

  /** The guard of the second-photo branch: a person photo and no garment photo yet. */
  predicate AwaitingGarment(entry: Session) {
    entry.personImage.Some? && entry.garmentImage.None?
  }

  /** Every stored entry is waiting for its garment photo. */
  predicate AllAwaitingGarment(sessions: map<UserId, Session>) {
    forall u :: u in sessions ==> AwaitingGarment(sessions[u])
  }

  /** The calls of a hand-off, as actions. */
  function Externals(calls: seq<Call>): seq<Action> {
    seq(|calls|, i requires 0 <= i < |calls| => External(calls[i]))
  }

  /** The replies to the outcome of the hand-off: the photo and a confirmation, or an apology. */
  function Outcome(path: Option<string>): seq<Action> {
    match path
    case Some(p) => [ReplyPhoto(p), ReplyText(SuccessText)]
    case None => [ReplyText(FailureText)]
  }

  /** image_handler on one photo from `user` whose file path is `filePath`. */
  function Handle(sessions: map<UserId, Session>, user: UserId, filePath: string, services: Services): (t: Transition)
    // no other user's entry is read or written
    ensures t.sessions - {user} == sessions - {user}
    // first photo: open an entry holding only the person photo and ask for the garment
    ensures user !in sessions ==>
      && user in t.sessions && t.sessions[user] == Session(Some(filePath), None)
      && t.actions == [ReplyText(AskGarmentText)]
    // second photo: acknowledge, hand off (stored person photo, new garment photo), reply, and close the entry
    ensures user in sessions && AwaitingGarment(sessions[user]) ==>
      var h := SendToGradio(sessions[user].personImage.value, filePath, services);
      && user !in t.sessions
      && t.actions == [ReplyText(ProcessingText)] + Externals(h.calls) + Outcome(h.path)
    // anything else: prompt to start again and change nothing
    ensures user in sessions && !AwaitingGarment(sessions[user]) ==>
      t.sessions == sessions && t.actions == [ReplyText(RestartText)]
    // every stored entry stays "person only"
    ensures AllAwaitingGarment(sessions) ==> AllAwaitingGarment(t.sessions)
    // and then the restart prompt is never sent
    ensures AllAwaitingGarment(sessions) ==> ReplyText(RestartText) !in t.actions
  {
    if user !in sessions then
      Transition(sessions[user := Session(Some(filePath), None)], [ReplyText(AskGarmentText)])
    else if AwaitingGarment(sessions[user]) then
      var entry := sessions[user].(garmentImage := Some(filePath));
      var h := SendToGradio(entry.personImage.value, entry.garmentImage.value, services);
      Transition(sessions - {user}, [ReplyText(ProcessingText)] + Externals(h.calls) + Outcome(h.path))
    else
      Transition(sessions, [ReplyText(RestartText)])
  }

  /** A sequence of photo events handled one at a time, in order. */
  function Run(sessions: map<UserId, Session>, events: seq<PhotoEvent>): Transition
    decreases |events|
  {
    if events == [] then Transition(sessions, [])
    else
      var first := Handle(sessions, events[0].user, events[0].filePath, events[0].services);
      var rest := Run(first.sessions, events[1..]);
      Transition(rest.sessions, first.actions + rest.actions)
  }

  /**
   * In a sequential run every stored entry stays "person only", so the
   * else-branch of image_handler (the restart prompt) is never taken.
   */
  lemma {:induction false} RunNeverRestarts(sessions: map<UserId, Session>, events: seq<PhotoEvent>)
    requires AllAwaitingGarment(sessions)
    ensures AllAwaitingGarment(Run(sessions, events).sessions)
    ensures ReplyText(RestartText) !in Run(sessions, events).actions
    decreases |events|
  {
    if events != [] {
      var first := Handle(sessions, events[0].user, events[0].filePath, events[0].services);
      RunNeverRestarts(first.sessions, events[1..]);
    }
  }

  /** Events from other users never touch a user's entry, however many there are. */
  lemma {:induction false} RunLeavesOthersAlone(sessions: map<UserId, Session>, events: seq<PhotoEvent>, user: UserId)
    requires forall i :: 0 <= i < |events| ==> events[i].user != user
    ensures user in Run(sessions, events).sessions <==> user in sessions
    ensures user in sessions ==> Run(sessions, events).sessions[user] == sessions[user]
    decreases |events|
  {
    if events != [] {
      var first := Handle(sessions, events[0].user, events[0].filePath, events[0].services);
      assert user in first.sessions <==> user in first.sessions - {events[0].user};
      assert user in sessions <==> user in sessions - {events[0].user};
      RunLeavesOthersAlone(first.sessions, events[1..], user);
    }
  }

  /**
   * A full cycle from a user with no entry: the first photo asks for the
   * garment, the second starts the hand-off, and afterwards the dictionary
   * is exactly what it was before the cycle.
   */
  lemma CycleRestoresStore(sessions: map<UserId, Session>, user: UserId, person: PhotoEvent, garment: PhotoEvent)
    requires user !in sessions && person.user == user && garment.user == user
    ensures Run(sessions, [person, garment]).sessions == sessions
    ensures var actions := Run(sessions, [person, garment]).actions;
      |actions| >= 2 && actions[0] == ReplyText(AskGarmentText) && actions[1] == ReplyText(ProcessingText)
  {
    var first := Handle(sessions, user, person.filePath, person.services);
    var second := Handle(first.sessions, user, garment.filePath, garment.services);
    assert [person, garment][1..] == [garment];
    assert [garment][1..] == [];
    assert Run(first.sessions, [garment]) == Transition(second.sessions, second.actions + []);
    assert second.sessions == sessions;
  }

  /**
   * After a second photo, whatever the hand-off reported, the user's next
   * photo opens a fresh entry holding only that photo.
   */
  lemma NextPhotoStartsFresh(sessions: map<UserId, Session>, user: UserId, garment: string, next: string, s1: Services, s2: Services)
    requires user in sessions && AwaitingGarment(sessions[user])
    ensures var after := Handle(sessions, user, garment, s1).sessions;
      && user !in after
      && Handle(after, user, next, s2).sessions[user] == Session(Some(next), None)
      && Handle(after, user, next, s2).actions == [ReplyText(AskGarmentText)]
  {
  }

  /** The running bot: the user_sessions dictionary, changed in place by each photo event. */
  class Bot {
    var sessions: map<UserId, Session>

    /** The class invariant: every stored entry is waiting for its garment photo. */
    ghost predicate Valid()
      reads this
    {
      AllAwaitingGarment(sessions)
    }

    constructor ()
      ensures Valid() && sessions == map[]
    {
      sessions := map[];
    }

    /** image_handler: insert, update in place and delete, as app.py does. */
    method HandlePhoto(user: UserId, filePath: string, services: Services) returns (actions: seq<Action>)
      modifies this
      ensures sessions == Handle(old(sessions), user, filePath, services).sessions
      ensures actions == Handle(old(sessions), user, filePath, services).actions
      ensures old(Valid()) ==> Valid()
      ensures old(Valid()) ==> ReplyText(RestartText) !in actions
    {
      if user !in sessions {
        sessions := sessions[user := Session(Some(filePath), None)];
        actions := [ReplyText(AskGarmentText)];
      } else if sessions[user].personImage.Some? && sessions[user].garmentImage.None? {
        sessions := sessions[user := sessions[user].(garmentImage := Some(filePath))];
        actions := [ReplyText(ProcessingText)];
        var h := SendToGradio(sessions[user].personImage.value, sessions[user].garmentImage.value, services);
        actions := actions + Externals(h.calls);
        if h.path.Some? {
          actions := actions + [ReplyPhoto(h.path.value), ReplyText(SuccessText)];
        } else {
          actions := actions + [ReplyText(FailureText)];
        }
        sessions := sessions - {user};
      } else {
        actions := [ReplyText(RestartText)];
      }
    }
  }
}
