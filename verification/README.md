# Sign-up wizard: a Dafny model

This project models the logic of a three-step registration form for an
academic platform ("Pineappl"). The rendering and React hooks are left out, and
what remains is a small state machine over a form record:

- **Form record** (`FormState`): the thirteen string fields of the form, the
  three roles (student, lecturer, admin), and the input-change rule. A change
  overwrites the named field. Choosing a faculty also empties the department.
- **Reference data** (`Reference`): the static faculty table, the department
  table keyed by faculty id, and first-match lookup by id (`Array.find`).
- **Step validation** (`Validation`): one check per step. Each test runs in a
  fixed order and the first failing test's message is reported. `None` means
  the step passes.
- **Payload** (`Submission`): the avatar catalog of eighteen images and the
  payload sent to the sign-up service. The payload carries the form, the avatar
  path and the faculty and department names resolved by id.
- **Wizard** (`Wizard`): Next, Previous, input changes and Create Account as
  atomic transitions. The actions the rendered page offers are given as
  `Offered`. An invariant over every sequence of offered actions shows two
  things. The step stays in 1..3. A submission that passes the step 3 check
  always resolves both names, and the department belongs to the chosen faculty.

All files are verified together:
`dafny verify wrappers.dfy form.dfy reference.dfy validation.dfy submission.dfy wizard.dfy`.

Code behaviours worth knowing, modelled as written unless noted:

- The role test of step 3 compares the role string. A role string outside the
  three options would pass step 3 once faculty and department are set. The
  role selector never produces such a string, and `Wizard.Inv` records this.
- "Passwords do not match" is reported only when all five identity fields are
  filled. "Password must be at least 6 characters" is reported only when the
  two passwords also agree. An empty field always takes precedence.
- Choosing the empty "Select Faculty" option empties the department but does
  not reload the department list, so the previous faculty's departments stay
  selectable. Step 3 still fails then, because the faculty is empty.
- The handlers do not bound the step themselves (`Wizard.HandlersNeedTheGuard`).
  Only the rendering keeps it in range: Previous is shown above step 1, Next
  below step 3, and Create Account from step 3. Next and Create Account occupy
  the same unkeyed button slot, so the click that advances from step 2 may also
  act as a submission of step 3. The model treats that click as two actions
  (see `Wizard.Offered` under "Left out").
- A sign-up is only ever sent for a record that passes all three steps'
  checks, so in particular the password and its confirmation agree
  (`Wizard.SubmittedFormPassedEveryStep`). The identity inputs are rendered
  only on step 1 and the contact inputs only on step 2, and leaving a step
  forward always runs that step's check. `Wizard.StepsPassed` carries both
  facts through every offered action (`Wizard.RunKeepsStepsPassed`).

## Model

| member | source | states |
|---|---|---|
| FormState.ParseRole | src/pages/Auth/SignUp.tsx:230-234 | a stored role string parses to a role only if it is that role's option value |
| FormState.ParseRoleName | src/pages/Auth/SignUp.tsx:231-233 | the value stored for each role parses back to that role |
| FormState.FieldOf | src/pages/Auth/SignUp.tsx:95-96 | an input name designates a field only if it is that field's input name |
| FormState.FieldNameRoundTrip | src/pages/Auth/SignUp.tsx:212-244 | each input's name designates that input's own field |
| FormState.Set | src/pages/Auth/SignUp.tsx:97-100 | the spread update gives the named field the new value and keeps every other field |
| FormState.Change | src/pages/Auth/SignUp.tsx:95-105 | a change sets the named field; changing the faculty also empties the department; no other field changes |
| FormState.ChangeByName | src/pages/Auth/SignUp.tsx:95-105 | a change addressed by a field's input name is that field's change; a name that designates no field leaves the record as it is |
| FormState.ChangeIsPointwise | src/pages/Auth/SignUp.tsx:95-105 | the whole effect of one change, field by field: the new value, the emptied department, or the old value |
| FormState.ChangeIdempotent | src/pages/Auth/SignUp.tsx:95-105 | repeating the same change gives the same record as making it once |
| Reference.FacultyTableIds | src/pages/Auth/SignUp.tsx:56-65 | the faculty table lists exactly the ids 1 to 5, each once |
| Reference.DepartmentsOf | src/pages/Auth/SignUp.tsx:67-92 | every listed department belongs to the queried faculty; an id outside 1..5 (the empty id included) gives the empty list; a known id gives a non-empty one |
| Reference.DepartmentIdsUnique | src/pages/Auth/SignUp.tsx:68-91 | the twelve department ids are distinct across the whole table |
| Reference.Find | src/pages/Auth/SignUp.tsx:165-166 | `find` gives nothing exactly when no element matches, else a matching element with no match before it |
| Reference.FindFaculty | src/pages/Auth/SignUp.tsx:165 | the faculty lookup finds nothing exactly when no loaded faculty has the id, else the first loaded faculty with that id |
| Reference.FindDepartment | src/pages/Auth/SignUp.tsx:166 | the department lookup finds nothing exactly when no loaded department has the id, else the first loaded department with that id |
| Reference.FindDepartmentUnique | src/pages/Auth/SignUp.tsx:166 | in a list with unique ids, looking up a listed department's id gives that department |
| Validation.ValidateIdentity | src/pages/Auth/SignUp.tsx:109-122 | step 1 passes iff the five identity fields are filled, the passwords agree and the password has at least 6 characters; an empty field is reported first, then a mismatch, then a short password |
| Validation.ValidateContact | src/pages/Auth/SignUp.tsx:123-128 | step 2 passes iff date of birth and phone are filled; otherwise it reports the fill-in message |
| Validation.ValidateAffiliation | src/pages/Auth/SignUp.tsx:129-142 | step 3 reports the selection message whenever faculty or department is empty; otherwise a student fails iff the matriculation number is empty, and a lecturer or admin fails iff the staff id is empty |
| Validation.Validate | src/pages/Auth/SignUp.tsx:107-146 | a step passes iff its conjunction of requirements holds; a failure reports exactly one non-empty known message; a step outside 1..3 always passes |
| Validation.ErrorText | src/pages/Auth/SignUp.tsx:107-146 | a pass leaves the error line empty and a failure leaves exactly the failing check's message |
| Validation.ContactIgnoresOtherFields | src/pages/Auth/SignUp.tsx:123-128 | step 2 depends on date of birth and phone only; the address never matters |
| Validation.AffiliationIgnoresOtherRoleId | src/pages/Auth/SignUp.tsx:134-141 | the staff id is irrelevant for a student, and the matriculation number for a lecturer or admin |
| Validation.LecturerScenario | src/pages/Auth/SignUp.tsx:129-142 | a lecturer with staff id S123, faculty 1 and department 2 passes step 3 |
| Validation.StudentScenario | src/pages/Auth/SignUp.tsx:134-137 | a student with faculty and department chosen but no matriculation number fails with the matriculation message |
| Submission.AvatarUrl | src/pages/Auth/SignUp.tsx:168-174 | the avatar path is the root followed by one of the eighteen catalog names |
| Submission.AvatarUrlInjective | src/pages/Auth/SignUp.tsx:168-173 | distinct draws give distinct avatar paths |
| Submission.FacultyName | src/pages/Auth/SignUp.tsx:165 | the faculty name (`?.name` on line 179) is absent exactly when no loaded faculty has the id, else the name of the first one that has it |
| Submission.DepartmentName | src/pages/Auth/SignUp.tsx:166 | the department name (`?.name` on line 180) is absent exactly when no loaded department has the id, else the name of the first one that has it |
| Submission.BuildPayload | src/pages/Auth/SignUp.tsx:165-181 | the payload carries the whole form, a catalog avatar path, and the first-match faculty and department names, each absent exactly when its id matches nothing loaded |
| Submission.FacultyNameInTable | src/pages/Auth/SignUp.tsx:57-63 | every known faculty id resolves in the faculty table to that faculty's name |
| Wizard.Next | src/pages/Auth/SignUp.tsx:148-152 | Next raises the step by exactly one iff the current step's check passes, otherwise leaves it and shows that check's message; the error line is empty iff the check passed; nothing else changes |
| Wizard.Previous | src/pages/Auth/SignUp.tsx:154-157 | Previous lowers the step by one and empties the error line; nothing else changes |
| Wizard.Input | src/pages/Auth/SignUp.tsx:50-54 | an input change addressed by name applies the change rule to that name's field; the department list is reloaded for a new non-empty faculty id and otherwise kept |
| Wizard.Submit | src/pages/Auth/SignUp.tsx:159-194 | nothing is sent unless the step 3 check passes, and otherwise that check's message is shown; the payload holds the form, a catalog avatar and the first-match names; a service error shows the generic failure message, clears loading and keeps the step; success leads to the root path with the welcome message |
| Wizard.Visible | src/pages/Auth/SignUp.tsx:210-246 | an input is rendered only on steps 1 to 3, the matriculation number only for a student and the staff id only for a lecturer or admin, never both |
| Wizard.Selectable | src/pages/Auth/SignUp.tsx:230-242 | a selector yields only its options: one of the three role values, an empty or loaded faculty id (a known id once the table is loaded), an empty or loaded department id that the lookup resolves |
| Wizard.Offered | src/pages/Auth/SignUp.tsx:249-258 | the rendered buttons (Previous above step 1, Next below step 3, Create Account from step 3 when not loading) and inputs: any one offered action from a step in 1..3 stays within 1..3 |
| Wizard.InitInv | src/pages/Auth/SignUp.tsx:25-48 | the mounted wizard (step 1, empty form, student role, faculties loaded) satisfies the invariant, and no step lies behind it |
| Wizard.DispatchPreservesInv | src/pages/Auth/SignUp.tsx:249-258 | every action the page offers keeps the invariant |
| Wizard.SubmitPreservesInv | src/pages/Auth/SignUp.tsx:159-194 | a submission that leaves the wizard on screen keeps the invariant |
| Wizard.InputPreservesInv | src/pages/Auth/SignUp.tsx:95-105 | changing a rendered input to a value it can produce keeps the invariant, the department selection included |
| Wizard.RunPreservesInv | src/pages/Auth/SignUp.tsx:249-258 | any sequence of offered actions keeps the invariant |
| Wizard.StepStaysInRange | src/pages/Auth/SignUp.tsx:249-258 | from the mounted wizard, offered actions keep the step within 1..3 |
| Wizard.DispatchKeepsStepsPassed | src/pages/Auth/SignUp.tsx:148-152 | every offered action keeps the steps behind the current one passed: Next leaves a step only through its check, and inputs change only the current step's fields |
| Wizard.RunKeepsStepsPassed | src/pages/Auth/SignUp.tsx:210-226 | any sequence of offered actions keeps the invariant and keeps the steps behind the current one passed |
| Wizard.SubmitResolvesNames | src/pages/Auth/SignUp.tsx:159-181 | in a reachable state a submission that passes step 3 sends the chosen faculty's name from the table and the name of the chosen department, which belongs to the chosen faculty |
| Wizard.SubmittedFormPassedEveryStep | src/pages/Auth/SignUp.tsx:148-181 | in a state satisfying the invariant with earlier steps passed (every reachable state), a sent payload's form has matching passwords and passes the checks of steps 1, 2 and 3 |
| Wizard.NextThenPrevious | src/pages/Auth/SignUp.tsx:148-157 | when the step passes, Next then Previous returns to the same step with an empty error line |
| Wizard.PreviousThenNext | src/pages/Auth/SignUp.tsx:148-157 | when the previous step passes, Previous then Next returns to the same step with an empty error line |
| Wizard.NextFailureIsStable | src/pages/Auth/SignUp.tsx:148-152 | a Next that fails changes nothing when pressed again |
| Wizard.NextThenSubmitOffered | src/pages/Auth/SignUp.tsx:252-258 | from step 2, a passing Next followed at once by Create Account is an offered pair of actions, as the shared button slot allows |
| Wizard.HandlersNeedTheGuard | src/pages/Auth/SignUp.tsx:148-157 | without the rendering guard, Previous takes step 1 to 0, and Next advances past 3 unchecked |

## Left out

- CSS classes, icons and the show/hide password toggles have no logic to model. Which buttons and inputs are rendered is modelled by `Wizard.Offered`.
- React scheduling is left out. Each handler and the effect it triggers form one atomic transition. The faculty list counts as loaded at mount, although the first render shows it empty. The department table is read without waiting, as in the source.
- The sign-up service and navigation are foreign calls. The service's verdict is an input of `Wizard.Submit`. Navigation is the `Home` screen with its message.
- The avatar draw (`Math.random`, `Math.floor`) is an input: a catalog index in 0..17.
- Lengths are counted in characters (`|s|`), not UTF-16 code units.
- FormState.ChangeByName: an input name that designates none of the thirteen fields would add a new key to the source's record, and from there to the payload. The model ignores such a change. Every rendered input uses one of the thirteen names, and `Wizard.Offered` admits input events only for those names.
- Reference.DepartmentsOf: a faculty id naming an inherited object property (such as `constructor`) would make the source's table lookup return a non-list value. The model gives the empty list for every id outside the table. The faculty selector only produces the empty id and the ids 1 to 5.
- Wizard.Submit: the sign-up service is assumed always to answer. If its promise rejected, the source has no handler: loading would stay true and Create Account would stay disabled, a state `Wizard.Inv` (which says loading is false) excludes. The in-flight request is not a separate state either. Previous and every input stay enabled during the request in the source; actions taken then are not modelled, so "keeps the step" on failure holds for the atomic transition only.
- Wizard.Offered: DOM reuse is not modelled. Next (`type="button"`) and Create Account (`type="submit"`) are rendered as the same unkeyed button in the same place. When Next passes on step 2, the button may already be the submit button by the time the browser finishes the click, and then the submission handler runs too. Whether this happens depends on React re-rendering before the browser runs the click's default action. The model treats that as two actions, Next then Create Account, and `Allowed` admits that pair (`Wizard.NextThenSubmitOffered`). So the invariant and range proofs cover it. What the model does not promise is that a passing Next from step 2 leaves the error line empty and sends nothing: on a first arrival at step 3 the submission would show the faculty-and-department message at once, and with step 3 already filled in it would send the sign-up.
- Truthiness is modelled as non-emptiness, because every field of the record is always a string.
