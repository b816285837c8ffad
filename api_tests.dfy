/** The API's observed behaviour, request by request, on a freshly seeded
    registry. Each method plays one scenario of tests/test_api.py against
    the `Registry` class and states what the scenario asserts. */
module ApiScenarios {
  import opened Activities

  /** The confirmation texts of the scenarios below, spelled out. */
  lemma SignedUpNewStudentText()
    ensures SignedUpMessage("newstudent@mergington.edu", "Chess Club")
            == "Signed up newstudent@mergington.edu for Chess Club"
  {
  }

  lemma RemovedMichaelText()
    ensures RemovedMessage("michael@mergington.edu", "Chess Club")
            == "Removed michael@mergington.edu from Chess Club"
  {
  }

  /** Listing shows every seeded activity. */
  method GetActivitiesReturnsAll() returns (data: map<string, Activity>)
    ensures "Chess Club" in data && "Programming Class" in data && "Gym Class" in data
  {
    var registry := new Registry();
    data := registry.List();
  }

  /** Listing includes each activity's participants and capacity. */
  method GetActivitiesIncludesParticipantInfo() returns (data: map<string, Activity>)
    ensures "Chess Club" in data
    ensures "michael@mergington.edu" in data["Chess Club"].participants
    ensures data["Chess Club"].maxParticipants == 12
  {
    var registry := new Registry();
    data := registry.List();
  }

  /** A signup for an existing activity with room is confirmed and the new
      participant then shows in the listing. */
  method SignupForExistingActivity() returns (outcome: Outcome, data: map<string, Activity>)
    ensures outcome == Ok("Signed up newstudent@mergington.edu for Chess Club")
    ensures "Chess Club" in data
    ensures "newstudent@mergington.edu" in data["Chess Club"].participants
  {
    var registry := new Registry();
    outcome := registry.Signup("Chess Club", "newstudent@mergington.edu");
    SignedUpNewStudentText();
    data := registry.List();
  }

  /** A signup for an unknown activity is refused as not found. */
  method SignupForNonexistentActivity() returns (outcome: Outcome)
    ensures outcome == NotFound("Activity not found")
  {
    var registry := new Registry();
    outcome := registry.Signup("Nonexistent Activity", "student@mergington.edu");
  }

  /** With Chess Club's list replaced by twelve students, its capacity, the
      next signup is refused as full and the list is left as it was. */
  method SignupForFullActivity() returns (outcome: Outcome, data: map<string, Activity>)
    ensures outcome == Full("Activity is full")
    ensures "Chess Club" in data && |data["Chess Club"].participants| == 12
  {
    var registry := new Registry();
    var chess := registry.activities["Chess Club"];
    var students := [
      "student0@mergington.edu", "student1@mergington.edu", "student2@mergington.edu",
      "student3@mergington.edu", "student4@mergington.edu", "student5@mergington.edu",
      "student6@mergington.edu", "student7@mergington.edu", "student8@mergington.edu",
      "student9@mergington.edu", "student10@mergington.edu", "student11@mergington.edu"];
    registry.activities := registry.activities["Chess Club" := chess.(participants := students)];
    outcome := registry.Signup("Chess Club", "latestudent@mergington.edu");
    data := registry.List();
  }

  /** A signup raises the activity's participant count by one. */
  method SignupIncrementsParticipantCount() returns (initialCount: nat, finalCount: nat)
    ensures finalCount == initialCount + 1
  {
    var registry := new Registry();
    var before := registry.List();
    initialCount := |before["Programming Class"].participants|;
    var _ := registry.Signup("Programming Class", "newstudent@mergington.edu");
    var after := registry.List();
    finalCount := |after["Programming Class"].participants|;
  }

  /** Removing a participant is confirmed and the email is then gone from the
      listing. */
  method UnregisterExistingParticipant() returns (outcome: Outcome, data: map<string, Activity>)
    ensures outcome == Ok("Removed michael@mergington.edu from Chess Club")
    ensures "Chess Club" in data
    ensures "michael@mergington.edu" !in data["Chess Club"].participants
  {
    var registry := new Registry();
    outcome := registry.Unregister("Chess Club", "michael@mergington.edu");
    RemovedMichaelText();
    data := registry.List();
  }

  /** Removing an email that is not a participant is refused as not found. */
  method UnregisterNonexistentParticipant() returns (outcome: Outcome)
    ensures outcome == NotFound("Participant not found in this activity")
  {
    var registry := new Registry();
    outcome := registry.Unregister("Chess Club", "nonexistent@mergington.edu");
  }

  /** Removing from an unknown activity is refused as not found. */
  method UnregisterFromNonexistentActivity() returns (outcome: Outcome)
    ensures outcome == NotFound("Activity not found")
  {
    var registry := new Registry();
    outcome := registry.Unregister("Nonexistent Activity", "student@mergington.edu");
  }

  /** Removing a participant lowers the activity's participant count by one. */
  method UnregisterDecrementsParticipantCount() returns (initialCount: nat, finalCount: nat)
    ensures finalCount + 1 == initialCount
  {
    var registry := new Registry();
    var before := registry.List();
    initialCount := |before["Chess Club"].participants|;
    var _ := registry.Unregister("Chess Club", "michael@mergington.edu");
    var after := registry.List();
    finalCount := |after["Chess Club"].participants|;
  }

  /** A participant can be removed and sign up again; both succeed and the
      email is back in the listing. */
  method UnregisterAndSignupAgain() returns (removed: Outcome, signedUp: Outcome, data: map<string, Activity>)
    ensures removed.Ok? && signedUp.Ok?
    ensures "Chess Club" in data
    ensures "michael@mergington.edu" in data["Chess Club"].participants
  {
    var registry := new Registry();
    removed := registry.Unregister("Chess Club", "michael@mergington.edu");
    signedUp := registry.Signup("Chess Club", "michael@mergington.edu");
    data := registry.List();
  }
}
