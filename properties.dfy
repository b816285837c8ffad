/** Properties of the registry that relate several requests: the capacity
    invariant over any sequence of requests, the fixed catalogue, the
    remove/re-add round trips and filling an activity to capacity. */
module RegistryProperties {
  import opened Participants
  import opened Activities

  /** A request to the API that changes the registry. */
  datatype Request =
    | SignupRequest(name: string, email: Email)
    | UnregisterRequest(name: string, email: Email)

  function Apply(acts: map<string, Activity>, req: Request): Step {
    match req
    case SignupRequest(name, email) => SignupStep(acts, name, email)
    case UnregisterRequest(name, email) => UnregisterStep(acts, name, email)
  }

  /** The answers to a sequence of requests, in order, and the final registry. */
  datatype Trace = Trace(outcomes: seq<Outcome>, activities: map<string, Activity>)

  function Run(acts: map<string, Activity>, reqs: seq<Request>): (t: Trace)
    ensures |t.outcomes| == |reqs|
  {
    if reqs == [] then Trace([], acts)
    else
      var s := Apply(acts, reqs[0]);
      var rest := Run(s.activities, reqs[1..]);
      Trace([s.outcome] + rest.outcomes, rest.activities)
  }

  /** After any sequence of signups and unregisters no activity is over its
      capacity. */
  lemma {:induction false} RunKeepsCapacity(acts: map<string, Activity>, reqs: seq<Request>)
    requires WithinCapacity(acts)
    ensures WithinCapacity(Run(acts, reqs).activities)
  {
    if reqs != [] {
      RunKeepsCapacity(Apply(acts, reqs[0]).activities, reqs[1..]);
    }
  }

  /** Activities are never created, renamed or deleted, and only their
      participant lists change. */
  lemma {:induction false} RunKeepsCatalogue(acts: map<string, Activity>, reqs: seq<Request>)
    ensures Run(acts, reqs).activities.Keys == acts.Keys
    ensures forall n :: n in acts ==> SameCatalogue(acts[n], Run(acts, reqs).activities[n])
  {
    if reqs != [] {
      var s := Apply(acts, reqs[0]);
      assert s.activities.Keys == acts.Keys;
      assert forall n :: n in acts ==> SameCatalogue(acts[n], s.activities[n]);
      RunKeepsCatalogue(s.activities, reqs[1..]);
    }
  }

  /** A refused request leaves the registry exactly as it was. */
  lemma RefusalChangesNothing(acts: map<string, Activity>, req: Request)
    requires !Apply(acts, req).outcome.Ok?
    ensures Apply(acts, req).activities == acts
  {
  }

  /** Removing a participant and signing the same email up again both
      succeed, the email is back, and the activity holds the same multiset of
      participants as before (only the email's position moves to the end). */
  lemma UnregisterThenSignup(acts: map<string, Activity>, name: string, email: Email)
    requires name in acts && email in acts[name].participants
    requires |acts[name].participants| <= acts[name].maxParticipants
    ensures var u := UnregisterStep(acts, name, email);
            var s := SignupStep(u.activities, name, email);
            && u.outcome == Ok(RemovedMessage(email, name))
            && s.outcome == Ok(SignedUpMessage(email, name))
            && email in s.activities[name].participants
            && s.activities.Keys == acts.Keys
            && SameCatalogue(acts[name], s.activities[name])
            && multiset(s.activities[name].participants) == multiset(acts[name].participants)
  {
  }

  /** Signing up an email that is not yet a participant and removing it again
      restores the registry exactly, participant order included. */
  lemma SignupThenUnregister(acts: map<string, Activity>, name: string, email: Email)
    requires name in acts && HasRoom(acts[name])
    requires email !in acts[name].participants
    ensures var s := SignupStep(acts, name, email);
            var u := UnregisterStep(s.activities, name, email);
            && s.outcome == Ok(SignedUpMessage(email, name))
            && u.outcome == Ok(RemovedMessage(email, name))
            && u.activities == acts
  {
    var a := acts[name];
    var s := SignupStep(acts, name, email);
    RemoveFirstAfterAppend(a.participants, email);
    var u := UnregisterStep(s.activities, name, email);
    assert u.activities[name] == a;
    assert u.activities.Keys == acts.Keys;
    assert forall n :: n in acts ==> u.activities[n] == acts[n];
  }

  /** With the seed's duplicate-free lists, a successful unregister leaves no
      copy of the email in the activity, and the list stays duplicate-free. */
  lemma UnregisterRemovesEmail(acts: map<string, Activity>, name: string, email: Email)
    requires name in acts && email in acts[name].participants
    requires Distinct(acts[name].participants)
    ensures var u := UnregisterStep(acts, name, email);
            && u.outcome.Ok?
            && email !in u.activities[name].participants
            && Distinct(u.activities[name].participants)
  {
  }

  /** Signup does not guard against repeats: an email already in a list with
      room is appended a second time. */
  lemma SignupRepeatAddsDuplicate(acts: map<string, Activity>, name: string, email: Email)
    requires name in acts && HasRoom(acts[name])
    requires email in acts[name].participants
    ensures var s := SignupStep(acts, name, email);
            && s.outcome.Ok?
            && multiset(s.activities[name].participants)[email]
               == multiset(acts[name].participants)[email] + 1
            && !Distinct(s.activities[name].participants)
  {
    var p := acts[name].participants;
    var q := p + [email];
    var i :| 0 <= i < |p| && p[i] == email;
    assert q[i] == q[|p|];
  }

  function SignupAll(name: string, emails: seq<Email>): (reqs: seq<Request>)
    ensures |reqs| == |emails|
  {
    if emails == [] then [] else [SignupRequest(name, emails[0])] + SignupAll(name, emails[1..])
  }

  /** Signing up a list of emails for an activity with room for all of them
      appends them in order and changes nothing else about the activity. */
  lemma {:induction false} SignupAllAppends(acts: map<string, Activity>, name: string, emails: seq<Email>)
    requires name in acts
    requires |acts[name].participants| + |emails| <= acts[name].maxParticipants
    ensures var t := Run(acts, SignupAll(name, emails));
            name in t.activities
            && t.activities[name] == acts[name].(participants := acts[name].participants + emails)
  {
    if emails != [] {
      var reqs := SignupAll(name, emails);
      var a := acts[name];
      var s := SignupStep(acts, name, emails[0]);
      assert Apply(acts, reqs[0]) == s;
      assert reqs[1..] == SignupAll(name, emails[1..]);
      var b := s.activities[name];
      assert b == a.(participants := a.participants + [emails[0]]);
      SignupAllAppends(s.activities, name, emails[1..]);
      var rest := Run(s.activities, reqs[1..]);
      assert Run(acts, reqs).activities == rest.activities;
      assert rest.activities[name] == b.(participants := b.participants + emails[1..]);
      assert b.participants + emails[1..] == a.participants + emails;
    } else {
      assert acts[name].participants + emails == acts[name].participants;
    }
  }

  /** ... and every one of those signups succeeds, in order. */
  lemma {:induction false} SignupAllSucceeds(acts: map<string, Activity>, name: string, emails: seq<Email>)
    requires name in acts
    requires |acts[name].participants| + |emails| <= acts[name].maxParticipants
    ensures var t := Run(acts, SignupAll(name, emails));
            forall k :: 0 <= k < |emails| ==> t.outcomes[k] == Ok(SignedUpMessage(emails[k], name))
  {
    if emails != [] {
      var reqs := SignupAll(name, emails);
      var s := SignupStep(acts, name, emails[0]);
      assert Apply(acts, reqs[0]) == s;
      assert reqs[1..] == SignupAll(name, emails[1..]);
      SignupAllSucceeds(s.activities, name, emails[1..]);
      var rest := Run(s.activities, reqs[1..]);
      assert Run(acts, reqs).outcomes == [s.outcome] + rest.outcomes;
    }
  }

  /** Signing up exactly as many emails as an activity has free places fills
      it: the next signup is refused with "Activity is full". */
  lemma {:induction false} SignupsFillActivity(acts: map<string, Activity>, name: string, emails: seq<Email>, late: Email)
    requires name in acts
    requires |acts[name].participants| + |emails| == acts[name].maxParticipants
    ensures var t := Run(acts, SignupAll(name, emails));
            && (forall k :: 0 <= k < |emails| ==> t.outcomes[k].Ok?)
            && SignupStep(t.activities, name, late) == Step(Full(ActivityIsFull), t.activities)
  {
    SignupAllAppends(acts, name, emails);
    SignupAllSucceeds(acts, name, emails);
  }
}
