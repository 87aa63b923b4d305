# Intake wizard: a verified model of its decision logic

This project models the browser-side logic of a two-step medical intake
wizard, `resources/js/main.js`. Step 1 covers the medication mode, the drug,
the number of packages, symptoms, allergies and chronic illnesses. Step 2
covers personal data, the PESEL number or its passport substitute, the
address and the attachments. The model covers the following:

- the validators of both steps (`Form`);
- the visibility toggles, the tab and button navigation, and the status line (`Wizard`);
- the debounced type-ahead search for a drug and its suggestion list (`Debounce`, `Wizard`);
- the data-URI slice that turns a file read into base64 (`FileEncoding`);
- the payload literal posted at checkout (`Payload`);
- the checkout pipeline, from its gates to the status text its reply produces (`Wizard`).

The page is modelled twice. Module `Wizard` holds it as a value, `Ui`, with
one function per handler and the lemmas about them. Module `WizardPage`
holds it as an object, `Page`, whose fields are the element properties the
handlers write: panel and tab classes, the status element, the suggestion
rows, the block displays and the textarea states. Each method of `Page`
performs the handler's writes one at a time. Its postcondition says that the
new page equals the `Wizard` function applied to the old one, so every
lemma about `Wizard` holds for the object as well. The debounced search
timer is a `Debounce.Debouncer` object owned by the page.

What the environment supplies enters as parameters:

- The translation lookup `t` is a function from key to text.
- The result of the drug search is a `SearchOutcome`: the items, or a failure.
- Each file carries the outcome of its read: the data URL, or an error.
- The checkout reply is an `HttpOutcome`. It is a 2xx body, a non-2xx status with its body, or a thrown exception with its name and message.
- Time is a discrete clock that one `Tick` advances by one millisecond.

Where the code and the documented behaviour of the form differ, the model
follows the code:

- The error shown after a failed checkout is the translated "failure" prefix followed by the message, not the bare server message.
- Attachments are read one after another.
- A file that cannot be read rejects the submission before any request is made. No error is then shown: the "submitting" status stays up.
- The chosen drug id is cleared when the debounced search callback runs in "self" mode. A keystroke on its own leaves the id unchanged. The next firing of the timer clears it only when the mode is "self"; in any other mode the callback returns first and the id stays.
- Lengths are counted in UTF-16 code units, as the code's `.length` does. A country or a query made of one character outside the Basic Multilingual Plane has length 2.

## Model

| member | source | states |
|---|---|---|
| Text.TrimStart | resources/js/main.js:63 | the result is a suffix of the input, everything removed is whitespace, and the result is empty or starts with non-whitespace |
| Text.TrimEnd | resources/js/main.js:63 | the result is a prefix of the input, everything removed is whitespace, and the result is empty or ends with non-whitespace |
| Text.Trim | resources/js/main.js:63 | the result is the input with a whitespace prefix and a whitespace suffix removed and the middle kept as it is; it neither starts nor ends with whitespace |
| Text.TrimEmptyIff | resources/js/main.js:72-73 | a trimmed value is empty (falsy) exactly when the raw value has no non-whitespace character |
| Text.TrimIdempotent | resources/js/main.js:144 | trimming an already trimmed value changes nothing |
| Text.IndexOf | resources/js/main.js:45 | -1 exactly when the pattern does not occur; otherwise the pattern occurs at the result and nowhere before it |
| Text.Upper | resources/js/main.js:192 | keeps the length, lowers each lower-case ASCII letter's code by exactly 32, and leaves every other character as it is |
| Text.NatText | resources/js/main.js:211 | the decimal form of a status code: non-empty, digits only, no leading zero |
| Text.NatTextRoundTrip | resources/js/main.js:211 | reading back the decimal digits of n gives n |
| Text.IntText | resources/js/main.js:130 | String(id) of an integer starts with '-' exactly for a negative id; the rest is non-empty decimal digits with no leading zero that read back as the absolute value |
| Text.IntTextHasText | resources/js/main.js:130 | String(id) always has a non-whitespace character, so it survives the drug-id check |
| Text.Utf16Length | resources/js/main.js:63 | the `.length` of a string: between its character count and twice that count, and equal to the count when every character is in the Basic Multilingual Plane |
| Text.Utf16LengthOfChar | resources/js/main.js:63 | one character counts two UTF-16 units exactly when its code point is above U+FFFF, and one otherwise |
| Text.Utf16LengthAppend | resources/js/main.js:146 | the UTF-16 length of a concatenation is the sum of the two lengths, so a string's length is the sum over its characters |
| Text.Utf16LengthByPlanes | resources/js/main.js:146 | two strings of the same character count whose characters lie in the same planes position by position have the same UTF-16 length |
| FileEncoding.Base64Payload | resources/js/main.js:44-46 | the result is a suffix of the read; it is empty when "base64," is absent, and otherwise it is what follows the first occurrence of "base64," |
| FileEncoding.Record | resources/js/main.js:51 | the record carries the file's name and the base64 slice of its read; its type is the file's type, or the default type when that is empty, so it is never empty |
| FileEncoding.DataUrlRoundTrip | resources/js/main.js:43-46 | for a data URL whose media type has no comma, the slice returns exactly the base64 data |
| FileEncoding.EncodeAll | resources/js/main.js:36-54 | the batch is encoded exactly when every file reads; record k then carries file k's name, its type or the default type, and its payload; otherwise the batch is rejected at the first failed read |
| FileEncoding.FilesToBase64 | resources/js/main.js:36-54 | the loop reads the files in order and returns what EncodeAll specifies; it stops at the first failed read, so a failure at file i means i + 1 reads were started, and success means one read per file |
| Form.Step1Exactly | resources/js/main.js:66-76 | step 1 passes exactly when the package count is between 1 and 3 or is NaN (an empty field counts as 1, and NaN fails both comparisons) and, in "self" mode, the drug id has text; other modes need no drug |
| Form.PackageCount | resources/js/main.js:68 | the number read from the field: NaN exactly for a non-numeric field, 1 for an empty field, and the field's number otherwise |
| Form.ValidateStep1 | resources/js/main.js:66-76 | a pass implies the package check passes; outside "self" mode the package check alone decides |
| Form.Step2Exactly | resources/js/main.js:78-93 | step 2 passes exactly when first name and last name have text, consent is given and, with no PESEL, the passport has text, the date of birth is set and the trimmed country is 2 UTF-16 units long |
| Form.RequiredIfNoPesel | resources/js/main.js:56-64 | with the box unchecked it holds; with the box checked it holds exactly when the passport has text, the date of birth is set and the trimmed country is 2 UTF-16 units long |
| Form.ValidateStep2 | resources/js/main.js:78-93 | a pass implies consent, requiredIfNoPesel, and a first and last name with text |
| Form.FlagIsNoCountryCode | resources/js/main.js:63 | a country made of one flag emoji (two astral characters, four UTF-16 units) fails step 2 with the no-PESEL box checked |
| Form.Step2IgnoresPesel | resources/js/main.js:83-89 | the PESEL value never decides step 2 |
| Form.NoPeselNeedsPassport | resources/js/main.js:56-64 | with the no-PESEL box checked, an empty passport fails step 2 |
| Payload.CountryCode | resources/js/main.js:192-194 | the code sent is non-empty and has no lower-case letter; it is "PL" for a blank field, and otherwise it is the trimmed field with each lower-case ASCII letter's code lowered by 32 and every other character kept |
| Payload.Build | resources/js/main.js:167-202 | the language and files are passed through; mode and no-PESEL flag are copied; symptoms, names, telephone, email, passport and the address fields are trimmed; each condition is (answer is "yes", trimmed text); the package count is PackageCount of the field; both country fields are CountryCode of the raw field |
| Payload.PeselWithheld | resources/js/main.js:188-189 | with the no-PESEL box checked the PESEL sent is empty; otherwise it is the trimmed field |
| Payload.CountryNormalised | resources/js/main.js:192-194 | the top-level country and the address country are both CountryCode of the field: non-empty, no lower-case letter, and "PL" when the field has no text |
| Payload.CountryTwoUnits | resources/js/main.js:192 | after step 2 passed with the no-PESEL box checked, the code sent is 2 UTF-16 units long |
| Payload.CountryCodeUnits | resources/js/main.js:192 | for a field with text, the code has the same UTF-16 length as the trimmed field |
| Payload.DrugOnlyInSelfMode | resources/js/main.js:170-171 | a drug object is sent exactly in "self" mode, and it is the raw id with the trimmed name |
| Payload.PackagesSent | resources/js/main.js:172 | after step 1 passed, the package count sent is a number between 1 and 3 or NaN; it is 1 for an empty field and the field's number for a numeric one |
| Payload.DateOfBirthNull | resources/js/main.js:191 | an empty date of birth is sent as null; any other value is sent unchanged |
| Debounce.Step | resources/js/main.js:28-34 | a call replaces the pending timeout with one carrying the new arguments and fires nothing; a tick fires the pending arguments once, exactly when ms have passed since their call, then nothing is pending |
| Debounce.RunAppend | resources/js/main.js:28-34 | running two event sequences one after the other equals running their concatenation |
| Debounce.RunKeepsConsistent | resources/js/main.js:30-33 | over any run of calls and ticks, a pending timeout is never set for a call later than the current time |
| Debounce.QuietRunFiresNothing | resources/js/main.js:30-33 | while calls keep coming less than ms apart, nothing fires |
| Debounce.IdleTicks | resources/js/main.js:28-34 | with nothing pending, time passing fires nothing |
| Debounce.PendingFiresOnce | resources/js/main.js:32 | a pending call fires exactly once, with its own arguments, when its delay runs out |
| Debounce.PendingFiresWithinDelay | resources/js/main.js:32 | in a consistent timer a pending call fires exactly once, with its own arguments, within ms ticks (at least one) |
| Debounce.BurstFiresOnceWithLastArgs | resources/js/main.js:28-34 | a burst of calls less than ms apart, then ms of quiet, fires exactly one call, carrying the last arguments |
| Debounce.Debouncer.constructor | resources/js/main.js:28-29 | the wrapper starts at time 0 with no pending timeout, so its state is consistent |
| Debounce.Debouncer.Call | resources/js/main.js:30-33 | a call clears the pending timeout and schedules one with the new arguments, as Step says; the timer is consistent afterwards |
| Debounce.Debouncer.Tick | resources/js/main.js:32 | a tick advances the clock and fires as Step says, and keeps the timer consistent |
| Wizard.SetStatus | resources/js/main.js:6-10 | the class is "ok" exactly for kind "ok" and an error for every other kind; the text is the message; visibility is untouched |
| Wizard.Cleared | resources/js/main.js:12-17 | the cleared status is hidden, plain and empty |
| Wizard.ShowStatus | resources/js/main.js:19 | the status becomes visible and keeps its class and text |
| Wizard.ShowStep | resources/js/main.js:21-26 | for n = 1 or 2 exactly panel n and tab n are active; any other n deactivates both; nothing else changes |
| Wizard.Next | resources/js/main.js:229-232 | a valid step 1 moves to step 2 and leaves the status alone; an invalid one stays put and shows the "pick a drug" error; form, rows, blocks and textareas never change |
| Wizard.ToggleDrugBlock | resources/js/main.js:95-98 | the drug block is shown exactly in "self" mode |
| Wizard.ToggleNoPeselBlock | resources/js/main.js:249-251 | the no-PESEL block is shown exactly when the box is checked |
| Wizard.ToggleTextArea | resources/js/main.js:100-104 | the textarea is disabled exactly when its question is not answered "yes", and is then emptied; a "yes" keeps its text; the other textarea, every other form field, the rows, the panels, the status and the blocks are untouched |
| Wizard.ToggleTextAreaIdempotent | resources/js/main.js:100-104 | toggling twice is the same as toggling once |
| Wizard.Init | resources/js/main.js:236-247 | after loading, step 1 is active and the status is hidden; the drug block and both textareas follow the form's answers; a disabled textarea is empty, an enabled one keeps its text, and every other form value is kept |
| Wizard.CloseDrugDropdown | resources/js/main.js:106-108 | the list is emptied; the form and the screen are unchanged |
| Wizard.RowsFor | resources/js/main.js:124-134 | one row per item, in order |
| Wizard.RenderDrugResults | resources/js/main.js:117-138 | one row per item, each showing the item's label and carrying String(id); an empty list leaves no rows |
| Wizard.SelectRow | resources/js/main.js:128-132 | clicking a row writes its label and id into the drug fields, changes no other form value, closes the list and leaves the screen as it was |
| Wizard.TypeDrugName | resources/js/main.js:239 | a keystroke changes the drug text only; the chosen id stays |
| Wizard.DrugQuery | resources/js/main.js:140-146 | a search is made exactly in "self" mode with a trimmed query of at least 2 UTF-16 units, and the query is that trimmed text |
| Wizard.AstralQuerySearched | resources/js/main.js:146 | in "self" mode a query of one astral character, such as a pill emoji, is long enough to be searched |
| Wizard.DrugInputFired | resources/js/main.js:140-154 | outside "self" mode nothing changes; in "self" mode the id is cleared; without a query the list is emptied; with one the list shows the items, or is emptied on failure; panels and status are untouched |
| Wizard.ShowSuggestions | resources/js/main.js:148-153 | the found items are rendered; a failed search empties the list |
| Wizard.SelectAfterRender | resources/js/main.js:124-132 | clicking row k of a rendered list writes item k's label and String(id) |
| Wizard.SelectionSatisfiesStep1 | resources/js/main.js:128-132 | in "self" mode with a valid count, choosing a suggestion makes step 1 pass |
| Wizard.FiredInputDropsSelection | resources/js/main.js:142-145 | in "self" mode, once the timer fires after any keystroke, the chosen id is gone, even for an unchanged label, and step 1 fails again |
| Wizard.FailureMessage | resources/js/main.js:211-215 | the message is empty only for a thrown error whose message and name are both empty |
| Wizard.FailureMessagePrecedence | resources/js/main.js:211-215 | for a non-2xx reply, the server's error text wins over "HTTP <status>", and the message is never empty; for a thrown error its message wins, then its name |
| Wizard.Outcome | resources/js/main.js:210-216 | a 2xx reply shows "ok" with the success text and the patient id; anything else shows an error with the failure text and the best message |
| Wizard.Posted | resources/js/main.js:166-202 | a payload is posted exactly when both steps pass and every file reads; it holds one record per file, built from the form |
| Wizard.Submit | resources/js/main.js:156-217 | the form, the suggestion rows, the blocks and the textareas are left as they were |
| Wizard.SubmitStopsAtStep1 | resources/js/main.js:158-160 | a failing step 1 gives exactly the old page on step 1 with the visible "pick a drug" error |
| Wizard.SubmitStopsAtStep2 | resources/js/main.js:158-161 | a failing step 2 gives exactly the old page with the visible "fill required" error |
| Wizard.SubmitPastGates | resources/js/main.js:163-216 | past both gates only the status changes: "submitting", replaced by the reply's outcome when every file reads |
| Wizard.SubmitWithoutDrug | resources/js/main.js:160 | a "self" order without a drug id posts nothing and shows the step-1 error on step 1 |
| Wizard.SubmitShowsPatientId | resources/js/main.js:213 | a valid "other" order with two packages is posted, and the success text ends with the returned patient id |
| Wizard.SubmitShowsServerError | resources/js/main.js:211-215 | a 400 reply with an error text shows the failure prefix followed by exactly that text |
| WizardPage.Page.constructor | resources/js/main.js:219-247 | the loaded page is Init of the form, and its search timer is fresh, idle and set to 300 ms |
| WizardPage.Page.ClearStatus | resources/js/main.js:12-17 | the status is hidden, plain and empty; nothing else changes |
| WizardPage.Page.ShowStatus | resources/js/main.js:19 | the status becomes visible; nothing else changes |
| WizardPage.Page.SetStatus | resources/js/main.js:6-10 | the status fields change as Wizard.SetStatus says; nothing else changes |
| WizardPage.Page.ShowStep | resources/js/main.js:21-26 | the page becomes Wizard.ShowStep of the old page |
| WizardPage.Page.Next | resources/js/main.js:229-232 | the page becomes Wizard.Next of the old page |
| WizardPage.Page.Back | resources/js/main.js:234 | the page shows step 1 |
| WizardPage.Page.ToggleDrugBlock | resources/js/main.js:95-98 | the page becomes Wizard.ToggleDrugBlock of the old page |
| WizardPage.Page.ToggleNoPeselBlock | resources/js/main.js:249-251 | the page becomes Wizard.ToggleNoPeselBlock of the old page |
| WizardPage.Page.ToggleTextArea | resources/js/main.js:100-104 | the page becomes Wizard.ToggleTextArea of the old page |
| WizardPage.Page.CloseDrugDropdown | resources/js/main.js:106-108 | the list is emptied and nothing else changes |
| WizardPage.Page.RenderDrugResults | resources/js/main.js:117-138 | the loop builds the rows item by item; the page becomes Wizard.RenderDrugResults of the old page |
| WizardPage.Page.SelectRow | resources/js/main.js:128-132 | the page becomes Wizard.SelectRow of the old page |
| WizardPage.Page.TypeDrugName | resources/js/main.js:239 | the text changes as Wizard.TypeDrugName says, and the timer is rescheduled as Debounce.Step says for a call |
| WizardPage.Page.OnDrugInput | resources/js/main.js:140-154 | the query searched is Wizard.DrugQuery of the old form, and the page becomes Wizard.DrugInputFired of the old page |
| WizardPage.Page.SearchDrug | resources/js/main.js:144-153 | the id is cleared, then the list is closed for a short query, or the search outcome is shown for the trimmed query |
| WizardPage.Page.ShowSuggestions | resources/js/main.js:148-153 | the page becomes Wizard.ShowSuggestions of the old page |
| WizardPage.Page.Tick | resources/js/main.js:32 | the timer moves as Debounce.Step says; when it fires, the callback runs as OnDrugInput says, and otherwise the page is unchanged |
| WizardPage.Page.SubmitCheckout | resources/js/main.js:156-217 | the payload posted is Wizard.Posted of the old form, and the page becomes Wizard.Submit of the old page |
| WizardPage.Page.Report | resources/js/main.js:163-164 | the status is shown, with the class and text Wizard.SetStatus gives |
| WizardPage.Page.SendOrder | resources/js/main.js:201-216 | a failed read posts nothing and leaves the page unchanged; otherwise the payload is built from the records and the status shows the reply's outcome |

## Left out

- The DOM is reduced to the properties the handlers write. Element lookup, markup building and event wiring are not modelled, and neither are the language buttons (`applyTranslations`, `setLang`), whose translation lookup is the parameter `t`.
- `fetch` and JSON parsing are not modelled. The outcome of each request is an input. A 2xx reply whose body is JSON `null` (which makes reading `patientId` throw) and a non-string server `error` value are not modelled.
- `FileReader` and base64 encoding are not modelled. Each file carries the data URL its read would produce, or a read error.
- Real timers are not modelled. The debounce uses a discrete clock in millisecond ticks.
- The asynchrony is not modelled. Each handler runs to completion. The model therefore leaves out interleavings such as a late search reply rendering over a newer query, or a second submit started while one is in flight.
- The click-outside handler at `resources/js/main.js:240-242` is not modelled. It needs element containment, which is a DOM query.
- The packages field's number conversion is modelled for an empty field, whole numbers and non-numbers. Fractions, exponents and surrounding whitespace are not modelled.
- Payload.Build: the drug id is sent as the raw field text, because `Number()` applied to it is not modelled.
- Payload.CountryCode: upper-casing is modelled for ASCII letters only. Full Unicode case mapping is not modelled.
- Upper: only ASCII letters are upper-cased, one character for one. `toUpperCase` also maps other letters, and some of them to several characters ("ß" becomes "SS"), so the length-keeping clause holds only for the model.
- CountryTwoUnits: the 2-unit length holds for the model's ASCII upper-casing. In the browser, a country such as "ßx" passes the check at `resources/js/main.js:63` and is sent as "SSX". CountryNormalised's "no lower-case letter" clause is likewise about ASCII letters only.
- CountryCodeUnits: keeping the trimmed field's UTF-16 length holds for the model's ASCII upper-casing only. In the browser, "ß" becomes "SS", which is one unit longer.
- Suggestion ids are modelled as integers. String ids, fractional ids and ids of 1e21 or more (whose String() uses an exponent) are not modelled. Wizard.SelectionSatisfiesStep1 and Text.IntTextHasText rely on this.
- The markup's initial state (step 1 active, status hidden, no-PESEL block hidden) is assumed, because the HTML page is not part of this model.
