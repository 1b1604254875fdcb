# Smart household assistant and order assistant: a Dafny model

This project models the core of a repository that holds two small assistants.

The **household assistant** is a FastAPI backend with a browser client. Chores,
meals and family members are kept in SQLite tables. Records can be created in
two ways:

- **Step flows**: `/chore/step` and `/meal/step` ask for the missing required
  fields one at a time. They then show a summary and write only once the client
  confirms.
- **Chat**: `/chat/` runs an LLM agent whose tools create, list, update and
  delete records.

The chat reply must start with a `<!-- stage: … -->` marker. Replies are
classified into conversation stages by three things:

- a keyword priority table;
- an LLM classifier with a hard "created" override and a keyword fallback;
- a memo (`lru_cache`).

A prompt tester runs the classifier over JSON test cases and can ask an LLM to
rewrite the prompt file between trials.

The **order assistant** is a terminal demo that sells products from a SQLite
catalogue. It has two flows:

- a scripted flow, in which the developer types the product number, the
  quantity, a confirmation and the recipient's details;
- an LLM agent, whose tools place and cancel orders and show the products,
  the stock and the orders.

Order input is validated by pydantic models. These are a non-empty check on
every field, a phone check and an e-mail check.

## How the model is built

- **Tables and objects with state.** A database table is a `Store.Table<R>`
  class: a map from row id to record, plus the next id. Its methods are the
  CRUD operations and carry `modifies` frames. Objects whose fields the source
  updates are classes too:
  - the browser client's state (`Frontend.FlowUI`);
  - the classifier's memo (`StageClassifier.StageMemo`);
  - the order agent with its last order id (`OrderAssistant.OrderAgent`);
  - the terminal the scripted flow reads from (`MockOrderAgent.ScriptedUI`).
- **Pure computations** are functions with lemmas. These cover the keyword
  table, marker normalisation, validation, list encoding and test-case merging.
- **Loops** in the source are methods with loop invariants, proved against a
  specification function:
  - the history normalisation loops;
  - the test-case merge;
  - the test runs;
  - the auto-tune loop;
  - the scripted flow's re-prompt loops.
- **LLM calls are parameters**. An agent's answer is an `Option<string>`, where
  `None` means the call raised. The suggested prompt of each trial is also an
  `Option<string>`. The e-mail validator and the payment outcome are
  parameters as well.
- **The classifier and the auto-tuner.** The classifier's system prompt is fixed
  in `backend/agents/stage_classifier.py:12-20`, and its answers are memoised.
  So a prompt the tuner writes to its file changes no classification. The model
  therefore passes the same oracle to every trial.

### Where the code and the written design differ

The model follows the code in each case:

- The design describes a confirmation-token protocol. In it, a pending-action
  store and a guard refuse destructive tools until the user confirms. The code
  has no such store: the step endpoints write as soon as `confirm` is set, and
  the chat tools act at once.
- The design describes stage keywords as matched on word boundaries. The code
  matches lower-cased substrings. So "which" counts as the greeting "hi"
  (`StageKeywords.HiInsideWordIsGreeting`).
- The design consults the keyword table before the LLM classifier. In the code,
  the classifier never reads that table: it has its own override phrases and
  fallback lists (`StageClassifier.OverrideAgreesWithTable` relates the two).
- The design maps an LLM answer "other" to collecting_info. The code maps every
  answer outside the four stages to unknown (`StageClassifier.NormalizeAnswer`).

## Model

| member | source | states |
|---|---|---|
| Store.Table.constructor | backend/models.py:32-34 | a new table has no rows, and its integer primary keys start at 1 |
| Store.Table.Add | backend/crud/chore.py:19-21 | a row is added under an id not used before, and every other row is kept |
| Store.Table.Get | backend/crud/chore.py:28-29 | the lookup by id finds the stored row, or nothing exactly when the id is absent |
| Store.Table.All | backend/crud/chore.py:25-26 | the listing holds every row once, with its record, in increasing id order |
| Store.Table.Put | backend/crud/chore.py:31-47 | the replacement succeeds exactly when the id exists, and changes only that row |
| Store.Table.Remove | backend/crud/chore.py:49-56 | the delete reports whether the id existed, and afterwards the id is gone and every other row is kept |
| ChoreCrud.MembersRoundTrip | backend/main.py:184 | reading back the comma-joined member names gives the names again, except that a single empty name reads back as no names |
| ChoreCrud.ToRow | backend/crud/chore.py:8-18 | the stored row keeps every field of the chore, with the members joined by commas |
| ChoreCrud.ReadBackChore | backend/main.py:179-191 | a stored chore reads back as the chore that was created, when no name holds a comma |
| ChoreCrud.FromFields | backend/schemas.py:18-27 | a validated chore carries the dict's name, members, start date and repetition; a missing due time becomes 23:59; a rejection names a chore field |
| ChoreCrud.CreateChore | backend/crud/chore.py:7-23 | the chore is stored under a fresh id as its row, and the other rows are unchanged |
| ChoreCrud.GetChore | backend/crud/chore.py:28-29 | the chore with that id, or none exactly when absent |
| ChoreCrud.GetChores | backend/crud/chore.py:25-26 | every stored chore is listed once, in id order |
| ChoreCrud.UpdateChore | backend/crud/chore.py:31-47 | an unknown id gives none and changes nothing; otherwise only that row is replaced by the new chore |
| ChoreCrud.DeleteChore | backend/crud/chore.py:49-56 | the result is true exactly when the chore existed, and afterwards it is gone |
| ChoreCrud.CrudScenario | backend/tests/test_chore_crud.py:5-33 | create, get, update and delete in turn: the chore is found, carries the new name, and after the delete the table is as it was |
| MealCrud.DishesRoundTrip | backend/main.py:200 | comma-joined dishes read back as the dishes, except a single empty dish; no dishes read back as an empty list |
| MealCrud.ToRow | backend/crud/meal.py:8-14 | the stored row keeps every field; dishes are stored comma-joined, and an empty list is stored as no dishes |
| MealCrud.AsBool | backend/schemas.py:39 | a bool is read as itself; a value of another kind that is accepted is 0, 1 or one of pydantic's yes/no texts, and it is read as the set it belongs to |
| MealCrud.AsBoolTexts | backend/schemas.py:39 | a text is read as true exactly when its lower-case form is a true text, as false exactly when it is a false text, and is rejected otherwise |
| MealCrud.ExistAnswers | backend/schemas.py:39 | "yes", "No" and "TRUE" are read in any case, while "maybe" and the number 2 are rejected |
| MealCrud.FromFields | backend/schemas.py:37-42 | a validated meal carries the dict's fields, with `exist` read as pydantic reads a bool; an unreadable `exist` and dishes given as text are rejected; a rejection names a meal field |
| MealCrud.TextExistValidates | backend/main.py:343-351 | a meal step whose `exist` is the text "yes" validates, with `exist` true |
| MealCrud.CreateMeal | backend/crud/meal.py:7-19 | the meal is stored under a fresh id, and the other rows are unchanged |
| MealCrud.GetMeal | backend/crud/meal.py:24-25 | the meal with that id, or none exactly when absent |
| MealCrud.GetMeals | backend/crud/meal.py:21-22 | every stored meal is listed once, in id order |
| MealCrud.UpdateMeal | backend/crud/meal.py:27-39 | an unknown id changes nothing; otherwise only that row is replaced |
| MealCrud.DeleteMeal | backend/crud/meal.py:41-48 | the result is true exactly when the meal existed, and afterwards it is gone |
| StageKeywords.FirstMatch | backend/agents/stage_keywords.py:1-4 | the stage found is that of the first rule with a matching keyword, and none exactly when no rule matches |
| StageKeywords.FirstMatchAt | backend/agents/stage_keywords.py:4-28 | if rule i matches and no earlier rule does, then rule i's stage is the answer |
| StageKeywords.PriorityShape | backend/agents/stage_keywords.py:4-28 | the table has seven distinct stages: error, created, greeting, confirming removal, canceled, confirming info, collecting info |
| StageKeywords.MatchedKeywordIsLower | backend/agents/stage_keywords.py:4-28 | any keyword found in a lower-cased reply is itself lower case |
| StageKeywords.KeywordStageIgnoresCase | backend/agents/stage_keywords.py:4-28 | the keyword stage of a reply does not depend on its letter case |
| StageKeywords.ErrorOutranksCreated | backend/agents/stage_keywords.py:5-12 | a reply holding any error keyword is an error, whatever else it holds |
| StageKeywords.SorryNotFoundIsError | backend/agents/stage_keywords.py:6 | "sorry" or "not found" makes a reply an error |
| StageKeywords.RemovalPhrasesAreCreated | backend/agents/stage_keywords.py:10-11 | removal, deletion and update phrases count as created, unless an error keyword is present |
| StageKeywords.RemovalOutranksConfirmingInfo | backend/agents/stage_keywords.py:16-23 | "are you sure" and "cannot be undone" make a reply confirming removal when no error, created or greeting keyword is present |
| StageKeywords.HiInsideWordIsGreeting | backend/agents/stage_keywords.py:14 | "hi" inside any word makes a reply a greeting when no error or created keyword is present |
| StageClassifier.NormalizeAnswer | backend/agents/stage_classifier.py:34-39 | the agent's answer, stripped and lower-cased, is kept when it is one of the four stages, and unknown otherwise |
| StageClassifier.Fallback | backend/agents/stage_classifier.py:41-52 | the fallback is one of the classifier's stages, and unknown exactly when no fallback keyword occurs |
| StageClassifier.ClassifyStage | backend/agents/stage_classifier.py:23-52 | an override phrase gives created whatever the agent says; otherwise the normalised answer, or the fallback when the agent raised |
| StageClassifier.ClassifyStageAsync | backend/agents/stage_classifier.py:54-81 | the async classifier returns one of the classifier's stages |
| StageClassifier.AsyncAgreesWithSync | backend/agents/stage_classifier.py:54-81 | the async and sync classifiers agree on every reply and answer |
| StageClassifier.OverrideIgnoresAgent | backend/agents/stage_classifier.py:28-31 | with an override phrase, two different agent answers give the same stage, created |
| StageClassifier.OverridePhrasesAreCreatedKeywords | backend/agents/stage_classifier.py:29 | the override phrases are the first seven created keywords of the priority table |
| StageClassifier.OverrideAgreesWithTable | backend/agents/stage_classifier.py:29 | an overridden reply without error keywords is also created under the keyword table |
| StageClassifier.NormalizeAnswerKeepsStage | backend/agents/stage_classifier.py:34 | a stage tag padded with whitespace is read back as that stage |
| StageClassifier.StageMemo.constructor | backend/agents/stage_classifier.py:23 | the memo starts empty |
| StageClassifier.StageMemo.Find | backend/agents/stage_classifier.py:23 | the memo entry for a reply, or -1 exactly when none exists |
| StageClassifier.StageMemo.Classify | backend/agents/stage_classifier.py:23-52 | a remembered reply gets its remembered stage and moves to the most recent place, every other entry kept in order; a new reply is classified and appended, and when the memo already holds 128 entries only the least recently used one is evicted |
| StageClassifier.ClassifyTwice | backend/agents/stage_classifier.py:23 | classifying the same reply twice gives the same stage, even when the agent would answer differently |
| Messages.NormalizeMessageHistory | backend/utils.py:4-18 | the loop yields the prompt part of every user or system entry, in order |
| Messages.KeptPartsAppend | backend/utils.py:9-16 | normalising two histories joined together gives the two results joined together |
| Messages.KeptPartsShorter | backend/utils.py:9-18 | the result is never longer than the history |
| Messages.OtherRolesDropped | backend/utils.py:13-17 | a history with no user or system entries normalises to nothing |
| Messages.PromptRolesKept | backend/utils.py:13-16 | a history of user and system entries is kept one for one, each entry's role and content kept |
| Chat.WordRun | backend/main.py:398 | the length of the longest leading run of word characters |
| Chat.MarkerLen | backend/main.py:398 | a match at the front is at least an opening, one word character and a closing long, and lies within the text |
| Chat.MatchIsMarker | backend/main.py:398 | whatever matches at the front is a whole marker |
| Chat.FindMarker | backend/main.py:398 | the search finds the first position holding a marker, or none exactly when there is no marker |
| Chat.RemoveMarkers | backend/main.py:401 | removing markers never lengthens the text |
| Chat.RemoveMarkersNoMarker | backend/main.py:401 | a text without markers is left as it is |
| Chat.NormalizeMarkerMarked | backend/main.py:397-402 | a reply holding a marker becomes its first marker, a newline, and the rest stripped of markers and outer whitespace |
| Chat.NormalizeMarkerStartsWithMarker | backend/main.py:397-403 | the normalised reply starts with a marker exactly when the reply holds one |
| Chat.NormalizeMarkerUnmarked | backend/main.py:403 | a reply without markers is returned unchanged |
| Chat.NormalizeOfNormalized | backend/main.py:397-403 | a marker, a newline and a stripped marker-free body is already normal |
| Chat.NormalizeMarkerIdempotent | backend/main.py:397-403 | normalising twice is normalising once when the stripped body holds no marker |
| Chat.NormalizeMarkerNotIdempotent | backend/main.py:397-403 | for every marker and word, a reply exists whose second normalisation drops the marker that the first one assembled |
| Chat.ChatReply | backend/main.py:404-426 | a raised first run gives the internal-error reply; a marked first reply is used after one run; otherwise a second run's marked reply, or the no-marker error reply |
| Chat.ChatReplyHasMarker | backend/main.py:411-426 | every reply the endpoint sends starts with a stage marker |
| Chat.OpenAiToModelMessages | backend/main.py:374-385 | the loop yields the translation of the history, and fails when an entry is not a dict |
| Chat.TranslateAppend | backend/main.py:376-385 | translating two histories joined together gives the two translations joined together |
| Chat.TranslateLength | backend/main.py:376-385 | the translation is never longer than the history, and of equal length when every role is system, user or assistant |
| Chat.ChatEndpoint | backend/main.py:387-426 | the endpoint fails exactly when the history cannot be translated; otherwise it echoes the raw history, runs the agent once or twice, and replies with a marker |
| StepFlow.Merge | backend/main.py:215-217 | the merged data has the keys of both; the user's input wins, and the current data is kept elsewhere |
| StepFlow.MissingMembers | backend/main.py:220 | a field is missing exactly when it is required and its value counts as missing |
| StepFlow.MissingNone | backend/main.py:220 | when every required field has a value, nothing is missing |
| StepFlow.MissingFirst | backend/main.py:229 | the field asked for first is the earliest missing one in the required order |
| StepFlow.MissingProgress | backend/main.py:214-229 | filling the first missing field with a value removes exactly that field from the list |
| StepFlow.MissingUnaffected | backend/main.py:220 | setting a field that is not required leaves the missing list unchanged |
| StepFlow.FalseIsMissingOnlyForChores | backend/main.py:313 | false counts as missing for chores but not for meals; an empty text counts as missing for both |
| StepFlow.ChoreSummary | backend/main.py:238-253 | the summary has the eight chore keys, keeps the required values, and gives the due time 23:59 when none is set |
| StepFlow.ChoreStep | backend/main.py:212-276 | asks for the first missing field; with none missing, summarises until confirmed; when confirmed, stores the validated chore under a fresh id or reports the validation error; only a creation changes the table |
| StepFlow.ChoreWriteNeedsConfirm | backend/main.py:237-265 | the table changes only for a confirmed request with no missing fields |
| StepFlow.MealSummary | backend/main.py:329-341 | the summary has the five meal keys, each with the data's value |
| StepFlow.MealStep | backend/main.py:287-363 | first asks whether a named meal is in the recipes; then the first missing field; then a summary; a confirmed request stores the validated meal under a fresh id or reports the error |
| StepFlow.MealWriteNeedsConfirm | backend/main.py:293-352 | the table changes only for a confirmed request whose recipe question is answered and no field missing |
| HouseholdTools.OrText | backend/agents/llm_agent.py:56 | a given, non-empty text is kept; otherwise the default is used |
| HouseholdTools.ChoreOfTool | backend/agents/llm_agent.py:51-60 | the chore built by the tool carries the arguments, has no icon, and defaults an empty or absent due time to 23:59 |
| HouseholdTools.CreateChoreTool | backend/agents/llm_agent.py:47-74 | the chore is stored under a fresh id, with due time 23:59 when none was given, and the reply echoes it |
| HouseholdTools.CreateMealTool | backend/agents/llm_agent.py:122-144 | the meal is stored under a fresh id, no dishes being stored as none |
| HouseholdTools.CreateMemberTool | backend/agents/llm_agent.py:186-200 | the member is stored under a fresh id as given |
| HouseholdTools.ChoreCreatedReplyIsCreated | backend/agents/llm_agent.py:62-72 | the chore-created reply is classified created, whatever the agent answers |
| HouseholdTools.MealCreatedReplyIsCreated | backend/agents/llm_agent.py:134-142 | the meal-created reply is classified created, whatever the agent answers |
| HouseholdTools.MemberAddedReplyIsCreated | backend/agents/llm_agent.py:192-198 | the member-added reply is classified created, whatever the agent answers |
| HouseholdTools.Chars | backend/agents/llm_agent.py:154 | iterating a text yields one-character strings, one per character |
| HouseholdTools.ListedDishesAsWritten | backend/agents/llm_agent.py:154 | as written, the stored dishes "a,b" are listed as "a, ,, b" rather than "a, b" |
| HouseholdTools.ListedDishesRoundTrip | backend/agents/llm_agent.py:154 | corrected, the dishes cell lists the dishes as given at creation, joined by ", " |
| HouseholdTools.ChoreLines | backend/agents/llm_agent.py:84-87 | one table row per listed chore, in order |
| HouseholdTools.MealLines | backend/agents/llm_agent.py:153-156 | one table row per listed meal, in order |
| HouseholdTools.MemberLines | backend/agents/llm_agent.py:209-212 | one table row per listed member, in order |
| HouseholdTools.TableText | backend/agents/llm_agent.py:88 | a listing starts with its bold title |
| HouseholdTools.EmptyListing | backend/agents/llm_agent.py:80-81 | a complete listing is empty exactly when the table is empty |
| HouseholdTools.ListChoresTool | backend/agents/llm_agent.py:76-88 | "No chores found." exactly when the table is empty, otherwise a table of every chore once, in id order |
| HouseholdTools.ListMealsTool | backend/agents/llm_agent.py:146-157 | corrected: the stored dishes are split before listing (see Findings). "No meals found." exactly when the table is empty, otherwise a table of every meal once, in id order |
| HouseholdTools.ListMembersTool | backend/agents/llm_agent.py:202-213 | "No family members found." exactly when empty, otherwise a table of every member once, in id order |
| HouseholdTools.FilterFields | backend/agents/llm_agent.py:96 | the update keeps exactly the arguments that are model fields, with their values |
| HouseholdTools.WrapText | backend/agents/llm_agent.py:101-102 | a text value is wrapped into a one-element list; other values are kept |
| HouseholdTools.StoredMembers | backend/agents/llm_agent.py:98-100 | the stored member text splits into names that join back into it |
| HouseholdTools.ChoreUpdateMerges | backend/agents/llm_agent.py:103 | each chore field takes the given argument when present and the stored value otherwise; members are wrapped or split from storage |
| HouseholdTools.ChoreUpdateIgnoresOtherKeys | backend/agents/llm_agent.py:96 | arguments that are not chore fields do not change the update |
| HouseholdTools.ChoreDictValidates | backend/agents/llm_agent.py:103 | a stored chore's fields, with its members as a list, validate back to that chore |
| HouseholdTools.ChoreUpdateWithoutFieldsKeepsRow | backend/agents/llm_agent.py:90-104 | an update with no chore fields validates and stores the same row again |
| HouseholdTools.UpdateChoreTool | backend/agents/llm_agent.py:90-114 | an unknown id gives the not-found reply; a failing validation raises and changes nothing; otherwise only that row is replaced and the reply shows it |
| HouseholdTools.MealUpdateAsWrittenRejectsStoredDishes | backend/agents/llm_agent.py:169 | as written, updating a meal that has dishes, without passing dishes, always fails validation |
| HouseholdTools.MealUpdateMerges | backend/agents/llm_agent.py:165-169 | each meal field takes the given argument when present and the stored value otherwise |
| HouseholdTools.MealUpdateIgnoresOtherKeys | backend/agents/llm_agent.py:165 | arguments that are not meal fields do not change the update |
| HouseholdTools.MealUpdateWithoutFieldsKeepsRow | backend/agents/llm_agent.py:159-170 | corrected, an update with no meal fields validates and stores the same row again |
| HouseholdTools.UpdateMealTool | backend/agents/llm_agent.py:159-178 | corrected: the stored dishes are split back into a list before re-validation (see Findings). An unknown id gives the not-found reply; a failing validation raises and changes nothing; otherwise only that row is replaced |
| HouseholdTools.MemberFromFields | backend/schemas.py:5-8 | a validated member carries the dict's name, gender and avatar; a rejection names a member field |
| HouseholdTools.MemberUpdateMerges | backend/agents/llm_agent.py:221-222 | each member field takes the given argument when present and the stored value otherwise; no member fields keep the member |
| HouseholdTools.UpdateMemberTool | backend/agents/llm_agent.py:215-230 | an unknown id gives the not-found reply; a failing validation raises; otherwise only that row is replaced |
| HouseholdTools.DeleteChoreTool | backend/agents/llm_agent.py:116-120 | the chore is gone afterwards, and the reply says deleted exactly when it existed |
| HouseholdTools.DeleteMealTool | backend/agents/llm_agent.py:180-184 | the meal is gone afterwards, and the reply says deleted exactly when it existed |
| HouseholdTools.DeleteMemberTool | backend/agents/llm_agent.py:232-236 | the member is gone afterwards, and the reply says deleted exactly when it existed |
| HouseholdTools.DeleteRepliesDiffer | backend/agents/llm_agent.py:120 | the deleted and not-found replies differ |
| HouseholdTools.NotFoundRepliesAreErrors | backend/agents/llm_agent.py:95 | the not-found replies of the update and delete tools are classified as errors by the keyword table |
| Frontend.Endpoint | frontend/app.js:29 | the chore endpoint exactly in chore mode, and the meal endpoint otherwise |
| Frontend.GuessField | frontend/app.js:67-74 | a prompt mentioning "name" is taken to ask for the name of the mode's record |
| Frontend.GuessNothing | frontend/app.js:67-74 | no field is guessed exactly when the prompt holds none of the seven keywords |
| Frontend.UnguessedMealAnswerIsLost | frontend/app.js:67-84 | in meal mode, an answer to a prompt with no keyword is sent under "null"; the missing fields and the pending `exist` question do not change, so the server asks again |
| Frontend.TrimAll | frontend/app.js:77 | every piece is trimmed, and the number of pieces is kept |
| Frontend.ConvertInput | frontend/app.js:75-83 | the input has the guessed field, or "null", as its one key; members are split on commas and trimmed; exist is a yes-like answer; otherwise the text |
| Frontend.FlowUI.constructor | frontend/app.js:3-5 | the page starts with no mode, no stage and no data |
| Frontend.FlowUI.StartFlow | frontend/app.js:21-26 | the mode is set, stage and data are reset, and the first request has no input and no confirmation |
| Frontend.FlowUI.ApplyResponse | frontend/app.js:39-52 | the stage is the response's; collecting replaces the data; confirming merges the summary over it; other responses keep it |
| Frontend.FlowUI.Submit | frontend/app.js:63-84 | an empty value sends nothing; otherwise the converted value is posted under the guessed field, without confirmation |
| Frontend.FlowUI.Done | frontend/app.js:97 | the data so far is posted with confirmation and no input |
| Frontend.ChoreConfirmationKeepsFields | frontend/app.js:45-46 | after merging a chore summary, no required field is missing, so Done reaches the write |
| Frontend.MealConfirmationKeepsFields | frontend/app.js:45-46 | after merging a meal summary, exist is set and no required field is missing |
| Frontend.MembersPromptGuessedAsName | frontend/app.js:67-68 | as written, the members question ("Please provide member names") is guessed as the chore's name |
| Frontend.ChoreAnswerToAskedField | frontend/app.js:63-84 | corrected, an answer filed under the field the server asked for removes exactly that field from the missing list |
| OrderModels.NotEmpty | models.py:36-41 | a blank value is rejected with the empty-field message; otherwise the value is stripped and non-empty |
| OrderModels.NotEmptyKeepsCore | models.py:41 | padding around a value is removed, and the value itself is kept |
| OrderModels.Digits | models.py:46 | the digits of a value, never more characters than it has |
| OrderModels.ValidPhone | models.py:43-51 | a phone is accepted exactly when it has at least seven digits and only phone characters, and is kept stripped; the short check comes first |
| OrderModels.PhoneStripKeeps | models.py:51 | stripping a valid phone keeps its digits and its character set |
| OrderModels.ValidPhoneIdempotent | models.py:43-51 | validating an accepted phone again accepts the same value |
| OrderModels.ShortPhoneExample | tests/test_order_flow.py:82 | "123" is rejected as too short |
| OrderModels.LetteredPhoneExample | tests/test_order_flow.py:83 | "abc1234567" is rejected for its characters |
| OrderModels.ValidPhoneExample | tests/test_order_flow.py:66 | "+1 234-567-8901" is accepted unchanged |
| OrderModels.FailedFields | agent.py:50-53 | the fields reported are exactly those whose check fails |
| OrderModels.Validate | models.py:28-51 | a rejection names exactly the failing fields, at least one; an accepted form holds every value stripped and the e-mail as the e-mail check returns it |
| OrderModels.BlankFormReportsEveryField | models.py:36-41 | a form of empty answers is rejected with every field reported |
| OrderModels.TwoDecimals | agents/llm_agent.py:115 | a price in cents is shown with a point and two decimals |
| ProductTools.SeedProducts | tools.py:25-35 | an empty catalogue gets the three seed products under distinct ids; a non-empty one is left as it is |
| ProductTools.SeedTwice | tools.py:19-23 | seeding twice leaves exactly the three seed products |
| ProductTools.ListProducts | tools.py:37-42 | every catalogue row is listed once as a product with its own id, in id order |
| ProductTools.ListedProductLookups | tools.py:44-56 | for a listed product, the stock check compares its listed stock, and the price is its listed price |
| ProductTools.ProcessPayment | tools.py:62-64 | the payment always succeeds |
| OrdersTool.Decremented | agents/llm_agent.py:102 | the product's stock drops by the quantity, and every other product is unchanged |
| OrdersTool.Restocked | agents/llm_agent.py:131-133 | the product's stock rises by the quantity, and every other product is unchanged |
| OrdersTool.RestockUndoesDecrement | agents/llm_agent.py:131-133 | restocking what was decremented gives back the catalogue |
| OrdersTool.CheckedDecrementKeepsStock | agents/llm_agent.py:85-102 | after a passing stock check, decrementing leaves a lower, non-negative stock |
| OrdersTool.DecrementStock | agents/llm_agent.py:102 | the catalogue becomes the decremented one |
| OrdersTool.SaveOrder | agents/llm_agent.py:103 | the order is stored under a fresh id, and other orders are kept |
| OrderAssistant.FindByName | agents/llm_agent.py:80 | the first product whose name matches ignoring case, or none exactly when no name matches |
| OrderAssistant.FoundIsFirstMatch | agents/llm_agent.py:79-82 | searching the listing finds the matching product with the least id, and none exactly when no product matches |
| OrderAssistant.StockTextReadsBack | agents/llm_agent.py:151 | the stock cell reads "OUT OF STOCK" exactly when no stock is left, and otherwise reads back as the stock |
| OrderAssistant.ProductTable | agents/llm_agent.py:148-153 | one numbered row per product, in listing order, then the cancel row |
| OrderAssistant.StockTable | agents/llm_agent.py:199-203 | one numbered row per product, in listing order |
| OrderAssistant.OrderTable | agents/llm_agent.py:167-179 | one row per order with its id, in order |
| OrderAssistant.JoinCells | agents/llm_agent.py:268-270 | each line is its row's cells joined by a bar between spaces, one line per row |
| OrderAssistant.ShownLinesSplit | agents/llm_agent.py:262-271 | the shown orders split back into their lines, one per order, when no cell holds a newline |
| OrderAssistant.ServiceSaveOrder | agents/llm_agent.py:23-25 | the stock is decremented and the order is stored under a fresh id |
| OrderAssistant.OrderAgent.constructor | agents/llm_agent.py:28-40 | the agent has no last order; a catalogue that has rows is not reseeded, and an empty one gets exactly the three seed products under three distinct ids |
| OrderAssistant.OrderAgent.PlaceOrder | agents/llm_agent.py:67-119 | product, quantity, stock and recipient are checked in order, and the first failure answers with its error and changes nothing; otherwise the stock drops, the order is stored under a fresh id that becomes the last order, and the reply states the total |
| OrderAssistant.OrderAgent.RecordOrder | agents/llm_agent.py:102-104 | the stock of the product drops by the quantity, the order is stored under a fresh id, and that id becomes the last order |
| OrderAssistant.OrderAgent.CancelOrder | agents/llm_agent.py:123-140 | an unknown order changes nothing; otherwise the order is removed, its stock restored, and the last order id cleared when it was this one |
| OrderAssistant.OrderAgent.PlaceThenCancel | agents/llm_agent.py:102-139 | cancelling the order just placed restores the catalogue and the orders |
| OrderAssistant.OrderAgent.ListProductsTool | agents/llm_agent.py:144-160 | the no-products text exactly when the catalogue is empty, otherwise the table titled "Available Products" with columns #, Name, Price, Stock, one row per product numbered from 1 in id order, the cancel row, and the message asking to select by number |
| OrderAssistant.OrderAgent.StockInfoTool | agents/llm_agent.py:195-210 | the no-products text exactly when empty, otherwise the table titled "Product Stock Information" with columns #, Name, Stock, one stock row per product in id order, and its message |
| OrderAssistant.OrderAgent.ShowOrdersTool | agents/llm_agent.py:163-186 | the no-orders text exactly when there are no orders, otherwise the table titled "Orders" with its eight columns, one row per stored order in increasing id order, and the message "Here are your orders." |
| OrderAssistant.OrderAgent.ShowOrders | agents/llm_agent.py:262-272 | the orders listed are exactly the stored ones, each once, in increasing id order; the text is the no-orders text, or their rows joined line by line |
| MockOrderAgent.ScriptedUI.constructor | utils/ui.py:45-64 | the terminal starts before its first typed line; it records for each line the stripped text `prompt` returns, the integer `prompt_int` reads and the yes or no `prompt_yes_no` reads |
| MockOrderAgent.ScriptedUI.Prompt | utils/ui.py:45-46 | the next typed line, stripped; the end of the input gives none |
| MockOrderAgent.ScriptedUI.PromptInt | utils/ui.py:48-57 | the number returned is the one on the first line, from the current one on, that holds an integer between min and max, and reading stops right after that line; when no line does, every line is read and none is returned |
| MockOrderAgent.ScriptedUI.PromptYesNo | utils/ui.py:59-64 | the answer returned is the one on the first line, from the current one on, that says y, yes, n or no in any case, and reading stops right after it; when no line does, every line is read and none is returned |
| MockOrderAgent.Numbers | utils/ui.py:51 | one entry per typed line: the integer `int()` reads from the stripped line, if any |
| MockOrderAgent.Answers | utils/ui.py:61-63 | one entry per typed line: yes, no, or neither |
| MockOrderAgent.Replies | utils/ui.py:46 | one entry per typed line: the line stripped |
| MockOrderAgent.FirstInt | utils/ui.py:49-55 | the line found holds a number in range and every line skipped before it does not; with none found, no line from the start on does |
| MockOrderAgent.FirstYesNo | utils/ui.py:60-64 | the line found holds a yes or a no and every line skipped before it holds neither |
| MockOrderAgent.ShownNumberSelects | agent.py:68-74 | typing the number shown beside a product selects that product |
| MockOrderAgent.CancelNumberSelectsNothing | agent.py:72-73 | typing 0, the cancel row's number, selects nothing |
| MockOrderAgent.ClearFields | agent.py:49-53 | the cleared form has the same fields |
| MockOrderAgent.ClearKeepsValidAnswers | agent.py:43-53 | after a rejection, exactly the failing or blank answers are cleared, and valid answers are kept |
| MockOrderAgent.OrderFieldsDistinct | agent.py:40 | the six fields are distinct form fields |
| MockOrderAgent.BlankFieldsMembers | agent.py:43-44 | a round asks for a field exactly when it is listed and its answer is blank |
| MockOrderAgent.BlankFieldAsked | agent.py:43-45 | a round with a blank field asks at least that field |
| MockOrderAgent.AskRoundReads | agent.py:43-45 | a round runs out of lines exactly when fewer lines remain than there are blank fields; otherwise it reads one line per blank field and answers the same fields |
| MockOrderAgent.AskRoundStores | agent.py:43-45 | the k-th blank field, in field order, is answered with the k-th line read in the round |
| MockOrderAgent.AskRoundKeeps | agent.py:43-45 | a field the round does not ask for keeps its answer |
| MockOrderAgent.TypedAnswerIsALine | agent.py:45 | an answer that is not blank is the stripped text of one of the lines read |
| MockOrderAgent.AskBlankFields | agent.py:43-45 | the round ends the input exactly when the stripped lines from the current one run out before the blank fields do, and then every line is read; otherwise the answers and the new position are those of `AskRound`, so the k-th blank field gets the k-th stripped line read, the position moves on by the number of blank fields, and filled answers are kept |
| MockOrderAgent.RoundKeepsTyped | agent.py:42-45 | a round with a blank field that does not run out reads at least one line, answers the same fields, and leaves every answer blank or a line typed since the collection began |
| MockOrderAgent.ClearedRound | agent.py:49-53 | after a rejection the cleared form has the six fields and a blank one, so the next round asks again |
| MockOrderAgent.ClearKeepsTyped | agent.py:50-53 | blanking reported fields keeps every other answer a typed line |
| MockOrderAgent.CollectOrderInput | agent.py:40-53 | the loop ends at the end of the input with every line read, or with a form that validates from the answers, each of which is the stripped text of a line read during the collection |
| MockOrderAgent.ChooseProduct | agent.py:68-74 | the number read is the first line holding one from 0 to the listing's length; with none, every line is read; 0 selects nothing; `n` selects the n-th listed product, which is a catalogue row as stored |
| MockOrderAgent.QuantityLine | agent.py:23-28 | the quantity line comes after the product line and holds a number from 1 to 1000 |
| MockOrderAgent.ConfirmLine | agent.py:36 | the confirmation line comes after the product line and holds a yes or a no |
| MockOrderAgent.ReadOrderLineMeaning | agent.py:19-38 | the flow is cancelled exactly when the product line says 0; a stop for the end of the input has read every line; the product is `listed[n-1]` for the `n` on the product line and the quantity is the number on the next line holding one from 1 to 1000; short stock stops right after that line, with the stored stock really short; a yes or a no is the confirmation line's, the last line read; going on, or declining, needs a listed product and a quantity from 1 to 1000 that the stock covers |
| MockOrderAgent.AgreeOrderLine | agent.py:19-38 | the products listed are the catalogue in id order, and the way steps 1 to 4 end and the lines they read are those `ReadOrderLine` gives for the typed lines |
| MockOrderAgent.AgreeQuantity | agent.py:27-38 | steps 2 to 4 end, and read lines, as `ReadQuantity` gives for the typed lines |
| MockOrderAgent.FinishOrder | agent.py:39-66 | after the form validates from the typed answers (each a stripped line read in this step), a refused payment changes nothing; an accepted one takes the quantity off the stock and stores the order, at the stored price, under a fresh id |
| MockOrderAgent.StartOrder | agent.py:19-66 | the flow is cancelled exactly when the product line says 0; the product and quantity are the ones the typed numbers pick; only a completed order changes the tables; declining, a failed payment and completion all need a catalogue product and a quantity from 1 to 1000 in stock, confirmed with no or yes on the confirmation line; a failed payment or completion carries answers that are lines typed after the confirmation and the form they validate to; on completion the stock drops and the order is stored under a fresh id |
| PromptTester.DedupKeys | tools/prompt_tester.py:33-40 | merging keeps every (reply, expected stage) key that occurs |
| PromptTester.DedupUnique | tools/prompt_tester.py:33-40 | merging leaves no key twice |
| PromptTester.DedupIsFirsts | tools/prompt_tester.py:35-39 | merging keeps exactly the first case with each key, in order |
| PromptTester.DedupPrefix | tools/prompt_tester.py:35 | merging extra cases keeps the merged base cases as a prefix |
| PromptTester.DedupOfUnique | tools/prompt_tester.py:33-40 | cases whose keys are all distinct are kept unchanged |
| PromptTester.LoadTestCases | tools/prompt_tester.py:26-41 | without an extra file the base cases are returned as they are; with one, base and extra are merged keeping the first case of each key |
| PromptTester.ExtraFileMergesBase | tools/prompt_tester.py:29-41 | a repeated base case is kept twice without an extra file, but once with even an empty one |
| PromptTester.ClassifierStageTag | backend/agents/stage_classifier.py:34-52 | every stage the classifier returns has one of five tags |
| PromptTester.RunTestCase | tools/prompt_tester.py:43-50 | the result records the reply, the expected stage and the stage's tag, and is ok exactly when they agree; a reply the memo holds gets the tag of the stage held, a new reply the tag of the classifier's stage for the agent's answer; no reply other than this one enters the memo |
| PromptTester.RunCase | tools/prompt_tester.py:71-74 | the result reports the case at its position, with its description or "Case i"; a reply new to the memo gets the tag of the classifier's stage; no other reply enters the memo |
| PromptTester.UnreachableStageFails | tools/prompt_tester.py:49 | a case expecting a stage the classifier never returns always fails |
| PromptTester.Failed | tools/prompt_tester.py:80 | the failed results are exactly those not ok, and none fail exactly when all are ok |
| PromptTester.RunTests | tools/prompt_tester.py:66-81 | one result per loaded case, in order, with its description or "Case i"; the failures are the results not ok; a case whose reply is neither in the starting memo nor in an earlier case gets the tag of the classifier's stage for that case's agent answer |
| PromptTester.RunTrial | tools/prompt_tester.py:96-97 | the results report every loaded case in order, and the failure count is the number of those results that are not ok |
| PromptTester.AutoTune | tools/prompt_tester.py:91-125 | trials are numbered from 1, at most the maximum; every trial before the last had at least one failure; the last trial's count is the failures among its results, which report every loaded case; all passed exactly when the last trial had no failures, and then every result of it is ok; the loop stops after one trial without auto mode or when no suggestion comes; each suggestion becomes the prompt |

## Left out

- LLM calls: the household agent's runs, the classifier's agent, and `suggest_prompt`. Each is an oracle parameter (`None` when it raises). The prompts the agents are given are not modelled.
- `_start_order_async` and `stop_chat` (agents/llm_agent.py:189-251): the interactive chat loop around the order agent, which only forwards typed lines to the LLM.
- SQL, the ORM, sessions and commits: a table is a map with fresh ids. SQLite's reuse of a deleted row's id is not modelled; only the freshness of new ids is.
- The `except` branch of `place_order` that answers "Order placement error" for a failing database call: the table operations do not fail in the model.
- Floating-point prices: prices and totals are integer cents, so rounding of float products is not modelled.
- `EmailStr`: e-mail validation is a parameter returning the normalised address or an error.
- Dates and times: pydantic's date parsing and strptime are left out; dates are kept as the text given. The create tools' date-error replies are therefore not modelled.
- Letter case and whitespace are ASCII only. `Text.IsSpace` is the ASCII part of Python's `str.isspace()`: tab to carriage return, 0x1C to 0x1F, and space. The regular expression class `\w` (`Chat.IsWordChar`) is ASCII letters, digits and `_`. `lower()`, `strip()` and `\w` on other Unicode characters are not modelled.
- Frontend.ConvertInput: JavaScript's `trim()` is modelled with Python's whitespace set. Unlike Python, JavaScript does not strip 0x1C to 0x1F.
- Text.ParseInt: Python's `int()` also accepts `_` between digits (for example "1_000"); the model rejects such text.
- Python's list `repr` in the recipe prompt (backend/main.py:299) is printed with every name in single quotes. Python switches to double quotes for a name holding `'`, and adds escapes; neither is modelled.
- HouseholdTools.ListMealsTool: lists the dishes as the corrected code would, split and joined again. As written, backend/agents/llm_agent.py:154 lists the characters of the stored text; `HouseholdTools.ListedDishesAsWritten` exhibits that (see Findings).
- HouseholdTools.UpdateMealTool: validates the corrected merge, with the stored dishes split back into a list. As written, backend/agents/llm_agent.py:169 raises for every meal stored with dishes unless the call supplies dishes; `HouseholdTools.MealUpdateAsWrittenRejectsStoredDishes` exhibits that (see Findings).
- Printing and other UI text: prompt labels, `print_order_summary`, `print_products`, verbose output and the prompt tester's results JSON file. `ScriptedUI` reads typed lines as a sequence, and the end of input stands for `input()` raising.
- The source of OrdersTool is not part of this model. `decrement_stock` and `save_order` are modelled on the database schema they update, as the agent code uses them.
- The payment outcome of the scripted flow is a parameter: the repository's own payment tool always succeeds (`ProductTools.ProcessPayment`), but the flow's failure branch is kept.
- The REST layer, the DOM rendering of the browser client, and the prompt watcher thread.
- Chat.NormalizeMarkerIdempotent: holds only when the stripped body holds no marker; `Chat.NormalizeMarkerNotIdempotent` shows the general case fails.
- MockOrderAgent.CollectOrderInput: states that every answer kept is the stripped text of some line read during the collection, not which line answers which field across rounds; one round's field-by-field answers are stated by `AskBlankFields` with `AskRoundStores`.
- MockOrderAgent.FinishOrder: states the answers as lines read during step 5, as `CollectOrderInput` does, not field by field.
- MockOrderAgent.StartOrder: states the answers as lines read after the confirmation line, not field by field.
- PromptTester.RunTests: states the classifier's stage only for a case whose reply is new to the memo; for a repeated reply it states only that the tag is one of the five (`RunTestCase` states the cached stage for one call).
- PromptTester.LoadTestCases: a missing `reply` or `expected_stage` key in a JSON case, which raises in the source, is not modelled; an empty extra path is treated like no path.
- PromptTester.AutoTune: the tuned prompt file is not read by the classifier (its prompt is fixed in backend/agents/stage_classifier.py:12-20 and its answers are memoised), so a reply classified in an earlier trial gets the stage the memo holds for it, whatever the later oracle answers. The results are stated for the last trial only; an earlier trial is stated only to have had at least one failure.

## Findings

| source | as written | input that shows it | evidently intended | confidence | as-written member | corrected member |
|---|---|---|---|---|---|---|
| backend/agents/llm_agent.py:169 | `update_meal` passes the stored row's dishes, a comma-joined text, back into `MealCreate`, which rejects text for a list | any meal stored with dishes, updated without a `dishes` argument (e.g. only a new `meal_name`) | the stored dishes are split back into a list, as `update_chore` does for members | high (not executed) | HouseholdTools.MealUpdateAsWrittenRejectsStoredDishes | HouseholdTools.MealUpdateWithoutFieldsKeepsRow |
| backend/agents/llm_agent.py:154 | `list_meals` joins the stored dishes text with ", ", which joins its characters | a meal stored with dishes "a,b" is listed as "a, ,, b" | the dishes are listed as "a, b" | high (not executed) | HouseholdTools.ListedDishesAsWritten | HouseholdTools.ListedDishesRoundTrip |
| frontend/app.js:67-74 | the field is guessed from keywords, and "name" is tried first | the chore members prompt "Who should do this task? (Please provide member names)" is guessed as `chore_name`, so the members are never filled and the question repeats | the answer is filed under the field the server asked for (the first missing field) | high (not executed) | Frontend.MembersPromptGuessedAsName | Frontend.ChoreAnswerToAskedField |
