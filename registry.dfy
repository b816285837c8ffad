/** The activity registry behind the school signup API: a table from activity
    name to activity record, listed verbatim, with two guarded mutations
    (signup and unregister) that each check and then change one activity's
    participant list. */
module Activities {
  import opened Participants

  type Email = string

  /** One extracurricular activity. Only `participants` ever changes. */
  datatype Activity = Activity(
    description: string,
    schedule: string,
    maxParticipants: nat,
    participants: seq<Email>)

  /** What a request answers: a confirmation message, or a refusal with its
      fixed detail text (HTTP 404 for NotFound, 400 for Full). */
  datatype Outcome = Ok(message: string) | NotFound(detail: string) | Full(detail: string)

  const ActivityNotFound := "Activity not found"
  const ActivityIsFull := "Activity is full"
  const ParticipantNotFound := "Participant not found in this activity"

  function SignedUpMessage(email: Email, name: string): string {
    "Signed up " + email + " for " + name
  }

  function RemovedMessage(email: Email, name: string): string {
    "Removed " + email + " from " + name
  }

  /** The participant count has not reached the capacity. */
  predicate HasRoom(a: Activity) {
    |a.participants| < a.maxParticipants
  }

  /** The registry's capacity invariant: no activity holds more participants
      than its `maxParticipants`. */
  predicate WithinCapacity(acts: map<string, Activity>) {
    forall n :: n in acts ==> |acts[n].participants| <= acts[n].maxParticipants
  }

  /** Everything of an activity but its participants is the same. */
  predicate SameCatalogue(a: Activity, b: Activity) {
    a.description == b.description && a.schedule == b.schedule
    && a.maxParticipants == b.maxParticipants
  }

  /** Result of one request on a registry: the answer and the new registry. */
  datatype Step = Step(outcome: Outcome, activities: map<string, Activity>)

  /** Signing up `email` for activity `name`: an unknown name is refused with
      "Activity not found", an activity whose count has reached its capacity
      with "Activity is full"; otherwise the email is appended. Repeated
      signups of one email are not rejected. */
  function SignupStep(acts: map<string, Activity>, name: string, email: Email): (r: Step)
    ensures r.outcome.Ok? <==> name in acts && HasRoom(acts[name])
    ensures name !in acts ==> r == Step(NotFound(ActivityNotFound), acts)
    ensures name in acts && !HasRoom(acts[name]) ==> r == Step(Full(ActivityIsFull), acts)
    ensures r.outcome.Ok? ==>
      && r.outcome.message == SignedUpMessage(email, name)
      && r.activities.Keys == acts.Keys
      && SameCatalogue(acts[name], r.activities[name])
      && r.activities[name].participants == acts[name].participants + [email]
      && email in r.activities[name].participants
      && |r.activities[name].participants| == |acts[name].participants| + 1
      && |r.activities[name].participants| <= r.activities[name].maxParticipants
      && (forall n :: n in acts && n != name ==> r.activities[n] == acts[n])
    ensures WithinCapacity(acts) ==> WithinCapacity(r.activities)
  {
    if name !in acts then Step(NotFound(ActivityNotFound), acts)
    else
      var a := acts[name];
      if |a.participants| >= a.maxParticipants then Step(Full(ActivityIsFull), acts)
      else Step(Ok(SignedUpMessage(email, name)),
                acts[name := a.(participants := a.participants + [email])])
  }

  /** Removing `email` from activity `name`: an unknown name is refused with
      "Activity not found", an email that is not a participant with
      "Participant not found in this activity"; otherwise one occurrence of
      the email (the first) is removed. */
  function UnregisterStep(acts: map<string, Activity>, name: string, email: Email): (r: Step)
    ensures r.outcome.Ok? <==> name in acts && email in acts[name].participants
    ensures name !in acts ==> r == Step(NotFound(ActivityNotFound), acts)
    ensures name in acts && email !in acts[name].participants ==>
      r == Step(NotFound(ParticipantNotFound), acts)
    ensures r.outcome.Ok? ==>
      && r.outcome.message == RemovedMessage(email, name)
      && r.activities.Keys == acts.Keys
      && SameCatalogue(acts[name], r.activities[name])
      && |r.activities[name].participants| == |acts[name].participants| - 1
      && multiset(r.activities[name].participants)
         == multiset(acts[name].participants) - multiset{email}
      && (forall n :: n in acts && n != name ==> r.activities[n] == acts[n])
    ensures WithinCapacity(acts) ==> WithinCapacity(r.activities)
  {
    if name !in acts then Step(NotFound(ActivityNotFound), acts)
    else
      var a := acts[name];
      if email !in a.participants then Step(NotFound(ParticipantNotFound), acts)
      else Step(Ok(RemovedMessage(email, name)),
                acts[name := a.(participants := RemoveFirst(a.participants, email))])
  }

  /** The three activities the registry starts with. */
  function Seed(): (m: map<string, Activity>)
    ensures m.Keys == {"Chess Club", "Programming Class", "Gym Class"}
    ensures WithinCapacity(m)
    ensures forall n :: n in m ==> Distinct(m[n].participants)
  {
    map[
      "Chess Club" := Activity(
        "Learn strategies and compete in chess tournaments",
        "Fridays, 3:30 PM - 5:00 PM",
        12,
        ["michael@mergington.edu", "daniel@mergington.edu"]),
      "Programming Class" := Activity(
        "Learn programming fundamentals and build software projects",
        "Tuesdays and Thursdays, 3:30 PM - 4:30 PM",
        20,
        ["emma@mergington.edu", "sophia@mergington.edu"]),
      "Gym Class" := Activity(
        "Physical education and sports activities",
        "Mondays, Wednesdays, Fridays, 2:00 PM - 3:00 PM",
        30,
        ["john@mergington.edu", "olivia@mergington.edu"])
    ]
  }

  /** The process-wide registry: one table mutated in place by the request
      handlers, so that a later listing observes every earlier change. */
  class Registry {
    var activities: map<string, Activity>

    /** The registry as it stands at startup. */
    constructor ()
      ensures activities == Seed()
    {
      activities := Seed();
    }

    /** GET /activities: the whole table, every field included. */
    method List() returns (r: map<string, Activity>)
      ensures r == activities
    {
      r := activities;
    }

    /** POST /activities/{name}/signup?email=... */
    method Signup(name: string, email: Email) returns (outcome: Outcome)
      modifies this
      ensures Step(outcome, activities) == SignupStep(old(activities), name, email)
      ensures WithinCapacity(old(activities)) ==> WithinCapacity(activities)
    {
      if name !in activities {
        return NotFound(ActivityNotFound);
      }
      var activity := activities[name];
      if |activity.participants| >= activity.maxParticipants {
        return Full(ActivityIsFull);
      }
      activities := activities[name := activity.(participants := activity.participants + [email])];
      outcome := Ok(SignedUpMessage(email, name));
    }

    /** DELETE /activities/{name}/participants/{email} */
    method Unregister(name: string, email: Email) returns (outcome: Outcome)
      modifies this
      ensures Step(outcome, activities) == UnregisterStep(old(activities), name, email)
      ensures WithinCapacity(old(activities)) ==> WithinCapacity(activities)
    {
      if name !in activities {
        return NotFound(ActivityNotFound);
      }
      var activity := activities[name];
      if email !in activity.participants {
        return NotFound(ParticipantNotFound);
      }
      activities := activities[name := activity.(participants := RemoveFirst(activity.participants, email))];
      outcome := Ok(RemovedMessage(email, name));
    }
  }
}
