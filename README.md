# Activity registry of the Mergington High School signup API

This project models the in-memory activity registry behind the school's
extracurricular signup API and proves properties of it in Dafny 4.11.

The registry maps an activity name to a record with a description, a
schedule, a capacity (`max_participants`) and an ordered list of participant
emails. Three operations act on it:

- **list** returns the whole table, every field included.
- **signup(name, email)** is refused with "Activity not found" when the name
  is unknown. It is refused with "Activity is full" when the participant
  count has reached the capacity. Otherwise it appends the email and answers
  "Signed up {email} for {name}".
- **unregister(name, email)** is refused with "Activity not found" when the
  name is unknown. It is refused with "Participant not found in this
  activity" when the email is not in the list. Otherwise it removes the email
  and answers "Removed {email} from {name}".

The application module `src/app.py` is not part of this model's sources; its
behaviour is taken from the contracts its test file `tests/test_api.py`
asserts, and from the seed data that file loads.

Files:

- `participants.dfy` (module `Participants`): the participant list. It has
  the first-occurrence scan (`FirstIndex`), removal of one occurrence
  (`RemoveFirst`) and duplicate-freedom (`Distinct`).
- `registry.dfy` (module `Activities`): the `Activity` record, the `Outcome`
  answers, the fixed detail texts and the capacity invariant. It has the
  pure specifications `SignupStep` and `UnregisterStep`, the seed table
  `Seed`, and the class `Registry`. That class holds the mutable table and
  its `List`, `Signup` and `Unregister` methods, each proved equal to its
  specification.
- `properties.dfy` (module `RegistryProperties`): runs of request sequences
  (`Run`). It holds the lemmas relating several requests: the capacity
  invariant, the fixed catalogue, both round trips, removal with duplicate-free
  lists, repeated signups, and filling an activity to capacity.
- `api_tests.dfy` (module `ApiScenarios`): one method per test scenario. Each
  runs a freshly seeded `Registry` and states in its `ensures` what the
  scenario asserts.

## Model

| member | source | states |
|---|---|---|
| `Participants.FirstIndex` | tests/test_api.py:147-154 | the index of the first occurrence of an email, or the list length exactly when the email is absent; no earlier entry equals it |
| `Participants.RemoveFirst` | tests/test_api.py:165-177 | removal drops exactly one copy of the email: the length falls by one, the multiset loses one copy, and entries before and after the first occurrence keep their order |
| `Participants.RemoveFirstOfDistinct` | tests/test_api.py:133-145 | in a duplicate-free list, no copy of the email is left after removal and the list stays duplicate-free |
| `Participants.RemoveFirstAfterAppend` | tests/test_api.py:179-194 | appending an absent email and then removing it gives back the original list, order included |
| `Activities.SignupStep` | tests/test_api.py:78-127 | unknown name gives NotFound "Activity not found" and full activity gives Full "Activity is full", both with the registry unchanged; success holds exactly when the activity exists and has room; success answers "Signed up {email} for {name}", appends the email, raises the count by one without passing capacity, and changes nothing else; the capacity invariant is preserved |
| `Activities.UnregisterStep` | tests/test_api.py:133-177 | unknown name gives NotFound "Activity not found" and absent email gives NotFound "Participant not found in this activity", both with the registry unchanged; success holds exactly when the email is a participant; success answers "Removed {email} from {name}", removes one copy, lowers the count by one and changes nothing else; the capacity invariant is preserved |
| `Activities.Seed` | tests/test_api.py:17-39 | the seed has exactly the three activities Chess Club, Programming Class and Gym Class; each is within capacity and has duplicate-free participants |
| `Activities.Registry.constructor` | tests/test_api.py:17-39 | a new registry holds the seed table |
| `Activities.Registry.List` | tests/test_api.py:56-72 | listing returns the current table verbatim |
| `Activities.Registry.Signup` | tests/test_api.py:78-127 | the answer and the new table are those of `SignupStep` on the old table; capacity is preserved |
| `Activities.Registry.Unregister` | tests/test_api.py:133-177 | the answer and the new table are those of `UnregisterStep` on the old table; capacity is preserved |
| `RegistryProperties.RunKeepsCapacity` | tests/test_api.py:101-113 | after any sequence of signups and unregisters, no activity holds more participants than its capacity |
| `RegistryProperties.RunKeepsCatalogue` | tests/test_api.py:56-72 | requests never add, remove or rename activities and never change a description, schedule or capacity |
| `RegistryProperties.RefusalChangesNothing` | tests/test_api.py:92-163 | a refused signup or unregister leaves the registry exactly as it was |
| `RegistryProperties.UnregisterThenSignup` | tests/test_api.py:179-194 | removing a participant and signing the same email up again both succeed with their messages; the email is back and the activity has the same multiset of participants as before |
| `RegistryProperties.SignupThenUnregister` | tests/test_api.py:179-194 | signing up a new email and removing it again both succeed and restore the registry exactly |
| `RegistryProperties.UnregisterRemovesEmail` | tests/test_api.py:133-145 | with a duplicate-free list, a successful unregister leaves no copy of the email and keeps the list duplicate-free |
| `RegistryProperties.SignupRepeatAddsDuplicate` | tests/test_api.py:78-90 | signup does not reject an email that is already present: it is appended a second time and the list stops being duplicate-free |
| `RegistryProperties.SignupAllAppends` | tests/test_api.py:115-127 | signing up emails for which the activity has room appends them in order and changes nothing else in that activity |
| `RegistryProperties.SignupAllSucceeds` | tests/test_api.py:115-127 | each of those signups succeeds with its own confirmation message |
| `RegistryProperties.SignupsFillActivity` | tests/test_api.py:101-113 | after as many signups as free places, all succeed and the next signup is refused with "Activity is full", leaving the registry unchanged |
| `ApiScenarios.GetActivitiesReturnsAll` | tests/test_api.py:56-63 | listing the seeded registry shows Chess Club, Programming Class and Gym Class |
| `ApiScenarios.GetActivitiesIncludesParticipantInfo` | tests/test_api.py:65-72 | the listing shows michael@mergington.edu in Chess Club and a Chess Club capacity of 12 |
| `ApiScenarios.SignupForExistingActivity` | tests/test_api.py:78-90 | the answer is "Signed up newstudent@mergington.edu for Chess Club" and the new email then appears in the listing |
| `ApiScenarios.SignupForNonexistentActivity` | tests/test_api.py:92-99 | the answer is NotFound "Activity not found" |
| `ApiScenarios.SignupForFullActivity` | tests/test_api.py:101-113 | after Chess Club's list is replaced by twelve students, the answer is Full "Activity is full" and the list still has twelve entries |
| `ApiScenarios.SignupIncrementsParticipantCount` | tests/test_api.py:115-127 | the Programming Class count after a signup is the count before plus one |
| `ApiScenarios.UnregisterExistingParticipant` | tests/test_api.py:133-145 | the answer is "Removed michael@mergington.edu from Chess Club" and the email is then absent from the listing |
| `ApiScenarios.UnregisterNonexistentParticipant` | tests/test_api.py:147-154 | the answer is NotFound "Participant not found in this activity" |
| `ApiScenarios.UnregisterFromNonexistentActivity` | tests/test_api.py:156-163 | the answer is NotFound "Activity not found" |
| `ApiScenarios.UnregisterDecrementsParticipantCount` | tests/test_api.py:165-177 | the Chess Club count after an unregister is the count before minus one |
| `ApiScenarios.UnregisterAndSignupAgain` | tests/test_api.py:179-194 | removing michael@mergington.edu from Chess Club and signing the same email up again both succeed, and the email is back in the listing |

## Left out

- The root redirect (307 to `/static/index.html`), static file serving, routing, the test client, and JSON and HTTP status encoding are not modelled. These are framework plumbing. The status codes appear only as the `Outcome` variants: `Ok` is 200, `NotFound` is 404 and `Full` is 400.
- `src/app.py` is not part of this model. All behaviour comes from what the tests assert. Where they are silent, these choices were made:
  - the full check refuses a count at or above capacity, not only one equal to it;
  - unregister removes the first occurrence of the email;
  - signup does not reject an email that is already present (see `SignupRepeatAddsDuplicate`).
- A registry description elsewhere calls the participants unique. Nothing in the tests guards signup against duplicates, so the model does not keep that as an invariant. Duplicate-freedom is proved only for the seed and for unregister (`UnregisterRemovesEmail`).
- Concurrency, and races between a check and the mutation after it, are not modelled. The model is single-threaded.
- The pytest fixtures and the `clear`/`update` reset are not modelled. Only the seed values remain, as `Seed` and the `Registry` constructor. Replacing a participant list directly, as the full-activity test does, is modelled only inside `SignupForFullActivity`, which assigns the public field.
- Email format validation is not modelled. No test exercises it.
- `maxParticipants` is an unbounded `nat`, not a positive integer. No operation depends on the difference.
- `ApiScenarios.SignupForExistingActivity` and `ApiScenarios.UnregisterExistingParticipant` state that the message is equal to the text. The tests only check that the message contains it, so the model's claim is stronger.
