# SAM Kitchen recipe generator: a Dafny model of its core logic

SAM Kitchen is a web application that writes Arabic recipes. The user fills a form: the
available ingredients, a cuisine, a meal type and a set of dietary options. A server-side
proxy turns the form into a prompt for a language model. It then strips the Markdown code
fence from the model's reply before parsing the JSON recipe. An admin panel edits the
subscription message, the channel link, the advertisement banners and the admin credentials.

This project models the sequential logic of that application and proves its properties:

- **Prompt builder** (`GeneratePrompt`, `GeminiService`). The source has two copies of
  `buildPrompt`. Each is an imperative method that appends one template per clause to a local
  `prompt`. Both are proved equal to one specification, `GeneratePrompt.Prompt`: the fixed header,
  then four clauses, each ending in a newline: ingredients, cuisine, meal type and dietary needs,
  in that order. The ingredients come from a text area, so their clause may itself span several
  lines. The two copies therefore return the same prompt for every form.
- **Fence stripper** (`ExtractJson`). `extractJson` matches ``/```(json)?\s*([\s\S]*?)\s*```/``.
  It returns the second group when the match exists and that group is non-empty, and its input
  otherwise. The model has two definitions:
  - a hand-written scanner (`ExtractJson`);
  - a reference (`RegexExtract`) that tries the regular expression's alternatives in the engine's
    order of preference: leftmost start, optional tag taken first, greedy white space, lazy body.

  `RegexAgreement` proves the two equal on every text. The lemmas then state what the result
  is, as listed under "## Model".
- **Form page** (`App`). It covers:
  - the initial form;
  - the per-field update;
  - the dietary-option toggle, which removes every occurrence or appends;
  - the submit guard, with the enable rule of the submit button beside it;
  - the loading/error/recipe state around one generation attempt, in class `RecipeApp`.

  The generation call is a parameter carrying its outcome: a recipe or a failure.
- **Admin settings editor** (`AdminSettings`). It covers:
  - the rule that keeps the password on save;
  - the record handed to `onSave`;
  - the reset of the local fields when the settings change;
  - the index-based edits of the advertisement list: add, delete, and edit one field of one
    entry. The edit copies the list into a fresh array and assigns one slot, as the source does.

  The editor's five `useState` fields and its `settings` prop are the fields of class
  `AdminSettingsEditor`.
- **Shared pieces.** `Text` models the JavaScript built-ins used: the `\s` class, `trim`, and
  `join(', ')` with a split that undoes it. `Types` holds the records of `types.ts`.
  `AppSettings` holds the settings record and the defaults of `settings.ts`.

The two `buildPrompt` copies are textually identical. Each Dafny copy keeps its own string
constants, so the equality between them is proved, not assumed.

## Model

| member | source | states |
|---|---|---|
| GeneratePrompt.BuildPrompt | api/generate.ts:54-73 | The prompt built by the appends is `Prompt(formData)`. It is defined for every form, empty ingredients included. |
| GeneratePrompt.Prompt | api/generate.ts:54-73 | The specification of the prompt: the header, then the four clauses. It starts with the header and ends in a newline. |
| GeneratePrompt.IngredientsLine | api/generate.ts:56 | The ingredients clause starts with the ingredients label and ends in a newline. The ingredients text between its quotes may hold line breaks of its own. |
| GeneratePrompt.CuisineLine | api/generate.ts:57-61 | The cuisine clause, in either branch, ends in a newline. |
| GeneratePrompt.MealTypeLine | api/generate.ts:62-66 | The meal-type clause, in either branch, ends in a newline. |
| GeneratePrompt.DietaryLine | api/generate.ts:67-71 | The dietary clause, in either branch, ends in a newline. |
| GeneratePrompt.PromptLayout | api/generate.ts:54-73 | The prompt cuts back into the header and four clauses, each ending in a newline: ingredients, cuisine, meal type, dietary needs, in that order. Each clause sits at the offset the lengths before it give. The ingredients clause may span several lines. |
| GeneratePrompt.IngredientsVerbatim | api/generate.ts:56 | Right after the header and the label, the ingredients appear verbatim between two double quotes, followed by the staples sentence. This holds for empty ingredients too. |
| GeneratePrompt.CuisineClause | api/generate.ts:57-61 | The cuisine line is the any-cuisine line if and only if the cuisine is the sentinel `أي نوع`. It starts with the must-be-from lead if and only if the cuisine is anything else, and then names the cuisine verbatim after the lead. |
| GeneratePrompt.MealTypeClause | api/generate.ts:62-66 | The same two equivalences for the meal type against the same sentinel, with the meal type named verbatim after its lead. |
| GeneratePrompt.DietaryClause | api/generate.ts:67-71 | The dietary line is the no-restrictions line if and only if the list is empty. It starts with the listing lead if and only if the list is non-empty. The listed text is the options joined by `", "` in list order, and splitting it at the separators gives the options back when no option holds a comma. |
| GeminiService.BuildPrompt | services/geminiService.ts:35-59 | For every form, the second copy builds exactly `GeneratePrompt.Prompt(formData)`, the first copy's prompt. So every fact above holds for it too, and it is total. |
| Text.Join | api/generate.ts:68 | `join(', ')`: empty for no elements; otherwise it starts with the first element. |
| Text.JoinAppend | api/generate.ts:68 | Appending an element to a non-empty list appends `", "` and that element to the join. |
| Text.IsSpace | api/generate.ts:76 | The ECMAScript white space and line terminators that `\s` and `trim` use. Each lies in the Basic Multilingual Plane, and none is a backtick. |
| Text.SplitJoin | api/generate.ts:68 | For a non-empty list whose elements hold no comma, splitting `join(', ')` at the separators gives the list back. |
| Text.Trim | components/AdminSettings.tsx:39 | The trimmed text neither starts nor ends with white space. |
| Text.TrimOfSlice | api/generate.ts:76 | Trimming a slice drops exactly the white space at its two ends. This is how the regular expression's two `\s*` act on the text between the fences. |
| Text.TrimSlice | components/AdminSettings.tsx:39 | The trimmed text is the slice between the end of the leading white space and the start of the trailing white space. |
| Text.TrimBlank | App.tsx:142 | `s.trim()` is empty if and only if every character of `s` is white space. |
| ExtractJson.ExtractJson | api/generate.ts:75-81 | The scanner's `extractJson`: the body span when it is non-empty, the input otherwise. The result is the input, or a non-empty text strictly shorter than it. |
| ExtractJson.RegexExtract | api/generate.ts:75-81 | `extractJson` as written: the second group of the regular expression's match when it exists and is non-empty, the input otherwise. The result is the input, or a non-empty text strictly shorter than it. |
| ExtractJson.Search | api/generate.ts:76 | `match` without the global flag: tries every start from `p` on. A capture starts past a fence that starts at or after `p`. |
| ExtractJson.SearchLeftmost | api/generate.ts:76 | Search returns the match at the leftmost start that matches, with no start before it matching. When it finds none, no start from `p` on matches. |
| ExtractJson.MatchAt | api/generate.ts:76 | The pattern at one start, with `(json)?` tried with the tag first: a match begins with a fence at `p`, and its capture starts after it. |
| ExtractJson.AfterOpen | api/generate.ts:76 | `\s*([\s\S]*?)\s*` followed by a fence, after the tag: the capture starts after white space only. |
| ExtractJson.LeadingSpace | api/generate.ts:76 | The greedy `\s*` with backtracking: the capture starts at the rightmost position up to `q` from which the lazy body finds a close. Every position further right fails, and with no result every position fails. |
| ExtractJson.LazyBody | api/generate.ts:76 | The lazy `([\s\S]*?)`: it ends at the first position from `e` on at which `\s*` and a fence follow. No earlier position has one, and with no result no position has one. |
| ExtractJson.CloseFrom | api/generate.ts:76 | `\s*` then a fence, with the white space up to `f` taken and given back: true if and only if a fence starts somewhere in `[e, f]`. |
| ExtractJson.TagEnd | api/generate.ts:76 | `(json)?` taken whenever present: past the four letters when `json` starts at `t`, else `t` itself. |
| ExtractJson.OpenBody | api/generate.ts:76 | The scanner after the tag: a body exists if and only if a fence follows the white space. It starts after white space only, holds no fence, and is non-white-space at both ends when non-empty. |
| ExtractJson.BodyAfter | api/generate.ts:76 | The body of a block opened at `p` starts past the fence and the optional tag, after white space only. |
| ExtractJson.FencedBody | api/generate.ts:76 | The scanner's capture span, taken after the first fence of the text. |
| ExtractJson.FindFence | api/generate.ts:76 | Returns the first position at or after `i` where three backticks start, or none when there is no such position. |
| Text.SkipSpace | api/generate.ts:76 | The greedy `\s*`: returns the end of the run of white space starting at `i`. The next character, if any, is not white space. |
| Text.TrailStart | api/generate.ts:76 | The `\s*` before the closing fence: returns the start of the run of white space ending at `k`, never reaching back before `b`. The character before it, past `b`, is not white space. |
| ExtractJson.RegexAgreement | api/generate.ts:76-80 | The scanner's span equals the second group of the regular expression's leftmost match, taken in the engine's order of preference. So the scanner and `extractJson` as written return the same text for every input. |
| ExtractJson.MatchAtFence | api/generate.ts:76 | At any opening fence, the regular expression's capture is what the scanner finds. With a `json` tag this holds whether or not the tag is taken. |
| ExtractJson.FencedBodyIffPair | api/generate.ts:76-80 | A match exists if and only if some fence starts at or after the end of an opening fence. With no such pair, the text comes back unchanged. |
| ExtractJson.FirstBlock | api/generate.ts:76-80 | Let `t` follow the first fence and its optional `json` tag, and let `k` be the next fence. The result is the trimmed text between `t` and `k`. If that trimmed text is empty, the result is the whole input. |
| ExtractJson.ExtractShape | api/generate.ts:76-80 | The result is either the input unchanged, or a non-empty, strictly shorter text with no leading or trailing white space and no three backticks inside. |
| ExtractJson.ExtractIdempotent | api/generate.ts:75-81 | Applying the stripper twice gives the same result as applying it once. |
| ExtractJson.WrappedRoundTrip | api/generate.ts:75-81 | ```` "```json\n" + x + "\n```" ```` strips back to `x`, for every non-empty `x` without backtick fences and without white space at either end. |
| App.InitialFormData | App.tsx:10-15 | The initial form: empty ingredients, both selects on the sentinel `أي نوع`, no dietary option. |
| App.SubmitGuardPasses | App.tsx:36 | The handler's guard passes if and only if the page is not loading and the ingredients are not the empty string. |
| App.SubmitEnabled | App.tsx:142 | The button is enabled if and only if the page is not loading and some character of the ingredients is not white space. |
| App.InitialFormState | App.tsx:10-15 | The initial form (empty ingredients, both selects on the sentinel, no dietary option) cannot be submitted. Its prompt is the header, the ingredients line for `""`, the any-cuisine line, the any-meal line and the no-restrictions line. |
| App.WithField | App.tsx:20-23 | An input change sets the named field to the value. The other two named fields and the dietary list are unchanged. |
| App.WithFieldOverwrite | App.tsx:22 | Of two changes to one field, the later wins. Writing back a field's own value changes nothing. |
| App.WithFieldCommute | App.tsx:22 | Changes to two different fields commute. |
| App.RemoveAll | App.tsx:28 | `filter(o => o !== option)`: the option no longer occurs. Every other element keeps its number of occurrences and its relative order. |
| App.ToggleOption | App.tsx:25-31 | A chosen option is removed, every occurrence of it, the rest keeping their order. An unchosen one is appended at the end, the earlier elements untouched. Afterwards the option is chosen if and only if it was not chosen before. |
| App.ToggleTwiceRestores | App.tsx:25-31 | Toggling an unchosen option twice restores the original list. |
| App.ToggleKeepsNoDuplicates | App.tsx:25-31 | A list without duplicates stays without duplicates under a toggle. |
| App.EnabledImpliesGuard | App.tsx:142 | An enabled submit button (not loading, trimmed ingredients non-empty) implies that the handler's guard at App.tsx:36 passes. Ingredients made only of white space pass that guard, yet the button is disabled for them. |
| App.RecipeApp.Valid | App.tsx:16-18 | The page invariant: while loading neither a recipe nor an error is shown, and never both at once. |
| App.RecipeApp.constructor | App.tsx:10-18 | Starts with the initial form, no recipe, not loading and no error. |
| App.RecipeApp.HandleInputChange | App.tsx:20-23 | The form becomes `WithField` of the old form. Recipe, loading and error are unchanged. |
| App.RecipeApp.HandleDietaryOptionToggle | App.tsx:25-32 | The dietary list becomes `ToggleOption` of the old list. All else is unchanged. |
| App.RecipeApp.StartSubmit | App.tsx:36-40 | A request is made if and only if the guard passes: not loading and ingredients not `""`. Then loading is on, error and recipe are cleared, and the request is the current form. Otherwise nothing changes. |
| App.RecipeApp.FinishSubmit | App.tsx:42-50 | Loading is off afterwards in both cases. On success the recipe is set and there is no error. On failure the error is the fixed message and there is no recipe. The form is unchanged. |
| App.RecipeApp.HandleSubmit | App.tsx:34-51 | A whole submit: when the guard passes, loading ends, and the recipe or the fixed error message is set according to the outcome. When it does not pass, nothing changes. Never a recipe and an error together. |
| AdminSettings.SetAdField | components/AdminSettings.tsx:51 | `{ ...ad, [field]: value }`: that field takes the value and the other two are kept. |
| AdminSettings.PasswordToSave | components/AdminSettings.tsx:39 | With an empty or white-space-only new password, the current password is saved. Otherwise the new password is saved as typed, untrimmed. |
| AdminSettings.AppendBlankAd | components/AdminSettings.tsx:69 | One more entry. The earlier entries are unchanged and the last has all three fields empty. |
| AdminSettings.KeepOthers | components/AdminSettings.tsx:73 | The filter by position, from position `i` on: every entry except the one at `index`, in order. |
| AdminSettings.DeleteAt | components/AdminSettings.tsx:73 | An in-range index removes exactly that entry, the rest keeping their order. An out-of-range index leaves the list unchanged. |
| AdminSettings.DeleteShifts | components/AdminSettings.tsx:73 | After deleting `index`, the length drops by one. Entries before `index` stay in place and later ones move down by one. |
| AdminSettings.DeleteAfterAdd | components/AdminSettings.tsx:68-75 | Deleting the entry just added restores the list. |
| AdminSettings.WithAdField | components/AdminSettings.tsx:50-52 | Editing one field of entry `index` keeps the length and sets that field. It keeps the entry's other fields and every other entry. |
| AdminSettings.EditUndone | components/AdminSettings.tsx:50-52 | Writing back a field's old value undoes an edit. |
| AdminSettings.AdsOrEmpty | components/AdminSettings.tsx:32 | The advertisements of the settings when present, the empty list when missing. |
| AdminSettings.EditorFor | components/AdminSettings.tsx:29-35 | The fields after the reset effect: the message, link and username of the settings, `AdsOrEmpty` for the list, and an empty password field. |
| AppSettings.Defaults | settings.ts:1-13 | The built-in settings hold one advertisement and the credentials `admin` / `password123`. |
| AdminSettings.SavePayload | components/AdminSettings.tsx:37-47 | The saved message, link, advertisements and username are the form fields as they stand. The password follows the keep rule of line 39. |
| AdminSettings.SaveWithoutEdits | components/AdminSettings.tsx:29-47 | Saving right after the reset gives the settings back, with a missing advertisement list becoming the empty list. |
| AdminSettings.ResetAfterSave | components/AdminSettings.tsx:29-46 | When the saved record comes back as the settings, the reset shows exactly the form that was saved, with the password field emptied. |
| AdminSettings.DefaultsRoundTrip | settings.ts:1-13 | The editor opened on the defaults shows their single advertisement. Saving it unedited gives the defaults back. |
| AdminSettings.AdminSettingsEditor.constructor | components/AdminSettings.tsx:23-35 | Mounting followed by the first run of the effect: the fields mirror the settings, with `[]` for a missing advertisement list and an empty password field. |
| AdminSettings.AdminSettingsEditor.SettingsChanged | components/AdminSettings.tsx:29-35 | The reset effect: the fields become `EditorFor(settings)`. |
| AdminSettings.AdminSettingsEditor.SetMessage | components/AdminSettings.tsx:126 | Only the message field changes. |
| AdminSettings.AdminSettingsEditor.SetLink | components/AdminSettings.tsx:141 | Only the link field changes. |
| AdminSettings.AdminSettingsEditor.SetNewUsername | components/AdminSettings.tsx:97 | Only the username field changes. |
| AdminSettings.AdminSettingsEditor.SetNewPassword | components/AdminSettings.tsx:110 | Only the password field changes. |
| AdminSettings.AdminSettingsEditor.HandleSubmit | components/AdminSettings.tsx:37-47 | The record handed to `onSave` is `SavePayload` of the current fields and settings. |
| AdminSettings.AdminSettingsEditor.ReplaceAdField | components/AdminSettings.tsx:50-52 | The array copy with one slot replaced: the list becomes `WithAdField` of the old list. The other fields are unchanged. |
| AdminSettings.AdminSettingsEditor.HandleAdTextChange | components/AdminSettings.tsx:49-53 | The text or the link of one entry changes, as `WithAdField` states. Nothing else changes. |
| AdminSettings.AdminSettingsEditor.HandleAdImageLoaded | components/AdminSettings.tsx:60-62 | Only the image of the one entry becomes the data URL. |
| AdminSettings.AdminSettingsEditor.HandleAddAd | components/AdminSettings.tsx:68-70 | The list becomes `AppendBlankAd` of the old list. |
| AdminSettings.AdminSettingsEditor.HandleDeleteAd | components/AdminSettings.tsx:72-75 | The list becomes `DeleteAt` of the old list, for any index. |

## Left out

- Model generation: `generateRecipe` in services/geminiService.ts and the `generateContent` call in the proxy are calls into the Google GenAI SDK. Their configuration (model name, `RECIPE_SCHEMA`, temperature 0.7) is not modelled. On the page, the call becomes the `GenerationOutcome` parameter of `RecipeApp.HandleSubmit`.
- The HTTP handler of api/generate.ts (method check, environment key, `JSON.parse`, status codes and headers) and all of api/get-settings.ts are network plumbing and are not modelled. This includes the handler's `trim()` of the raw reply before `extractJson`: the stripper is modelled on any text.
- The `FileReader` part of `handleAdImageChange` is browser I/O and asynchronous. Only the update made once the data URL exists is modelled.
- AdminSettings.AdminSettingsEditor.HandleAdImageLoaded: edits the list as it stands when the image has been read. The source edits the `ads` captured when the change event fired, so an edit made while the file was being read would be lost there; this is not modelled.
- AdminSettings.AdminSettingsEditor.HandleAdTextChange: requires an index inside the list, because the panel only edits entries it renders from that list. A JavaScript write past the end of an array would grow it; that case is not modelled.
- AdminSettings.AdminSettingsEditor.constructor: models mounting together with the first run of the reset effect. The single render before the effect, in which `ads` may be `undefined`, is not modelled.
- The JSX of App.tsx and components/AdminSettings.tsx, and the components RecipeCard, AdminLoginModal and SubscriptionPrompt, are presentation only. The `onSave` and `onLogout` callbacks are not called: `AdminSettingsEditor.HandleSubmit` returns the record that would be passed to `onSave`.
- Settings resolution, gist synchronisation, the admin login check and the subscription gate have no source among the files modelled, so they are not part of this model.
- React's update scheduling is not modelled: batched state setters, `useCallback` closures, and the `await` between `StartSubmit` and `FinishSubmit`. The model applies each handler's updates in order to the current state. Form edits made while loading keep `RecipeApp.Valid`.
- Text.SplitJoin: holds only for options that contain no comma. An option containing `, ` cannot be recovered from the joined line.
- Strings are sequences of Unicode scalar values, whereas JavaScript strings are UTF-16 code units. A JavaScript string may hold an unpaired surrogate, which a Dafny `char` cannot represent. The model therefore covers well-formed UTF-16 text only. On such text `\s`, `trim` and the fence search act alike, because every white-space character lies in the Basic Multilingual Plane (`Text.IsSpace`).
- `console.error` and `preventDefault` have no effect on the modelled state and are not modelled.
