# Pura — the logic inside the wellness app's components

Pura is a Next.js wellness companion: a landing page with a mood slider, login and
sign-up forms, a mood form, a set of relaxation games with a timed audio player, and a
chat endpoint backed by Google's Gemini models. Almost all of it is presentation. This
project models, in Dafny, the small pieces of logic that sit inside those components and
proves what they promise:

- **The session countdown** of the rain and ocean-waves players (`SessionTimer`,
  instantiated by `Rain` and `Waves`): a paused/playing state, a one-second tick that is
  only armed while playing with time left, the elapsed-percentage progress value, the
  play/pause toggle, the volume slider, and `formatTime`, which prints seconds as `m:ss`.
- **Emotion bucketing** (`EmotionScale`, used by `LandingPage` and `MoodForm`): the
  first of five anchors 0/25/50/75/100 within 15 of the slider value is the current
  emotion, else the third; anchors within 15 are highlighted; clicking one moves the
  slider onto it.
- **The login and sign-up schemas** (`FormRules`, `LoginForm`, `SignupForm`): per-field
  zod checks collected in field order, `trim` before the name check, `.min(6)` counted in
  UTF-16 code units, and the password-confirmation refinement. Whether a string is an
  e-mail address is a predicate passed in by the caller.
- **The relaxation-games card** (`AnxietyGames`): the catalogue, lookup by id, the
  click handler with its optional, failure-tolerant callback, the dialog state, and the
  dispatch from id to game component.
- **The chat endpoint** (`ChatRoute`): the API-key guard, the fallback of an unparseable
  body to `{}`, `??` defaulting of the model and the prompt, the single generation call,
  and the `{ text }` reply. The Gemini SDK is a function parameter.

`JsText` holds the JavaScript primitives the components rely on (`toString`, `padStart`,
`trim`, UTF-16 `length`); `Wrappers` holds `Option` and `Result`.

Both players carry identical copies of the timer code, and both pages carry the same
bucketing rule; each is modelled once and instantiated per file.

Progress is computed in the source as a floating-point number; here it is an exact
rational (`real`). The chat endpoint reads no `webSearch` field, has no model allow-list
and no `"(No response)"` fallback, so none of these appear in the model.

## Model

| member | source | states |
|---|---|---|
| `SessionTimer.Initial` | components/games/rain.tsx:15-18 | the player starts paused, at volume 50, with progress 0 and the whole session left, and that state is valid |
| `SessionTimer.Tick` | components/games/rain.tsx:39-46 | a tick happens only while playing with time left; it lowers the remaining time by exactly one, keeps play state and volume, and sets progress from the new remaining time; otherwise nothing changes |
| `SessionTimer.TogglePlay` | components/games/rain.tsx:64-71 | the button flips `isPlaying` and leaves remaining time, progress and volume alone |
| `SessionTimer.SetVolume` | components/games/rain.tsx:185-190 | moving the volume slider changes the volume only |
| `SessionTimer.ProgressAntitone` | components/games/rain.tsx:41-44 | less time left never means less progress |
| `SessionTimer.ProgressBounds` | components/games/rain.tsx:43 | progress lies in 0..100, is 0 exactly at the full session and 100 exactly when no time is left |
| `SessionTimer.TickPreservesValid` | components/games/rain.tsx:39-44 | a tick keeps the remaining time in 0..session with progress matching it, never raises the remaining time and never lowers progress |
| `SessionTimer.LastTickKeepsPlaying` | components/games/rain.tsx:39-46 | the tick that reaches 0 leaves the player playing with progress 100, and the interval is not armed again |
| `SessionTimer.TogglePlayInvolution` | components/games/rain.tsx:64-71 | pressing play twice restores the state |
| `SessionTimer.RunCountsDown` | components/games/rain.tsx:36-62 | `n` ticks of a playing timer leave `max(0, timeLeft - n)` seconds, still playing and valid |
| `SessionTimer.FullSessionCompletes` | components/games/rain.tsx:12-18 | pressing play and letting a whole session pass ends at 0 seconds and 100% |
| `SessionTimer.ReplayValid` | components/games/rain.tsx:15-71 | after any sequence of ticks, presses and volume changes the state is valid, and no event raises the remaining time or lowers progress |
| `SessionTimer.JsRem` | components/games/rain.tsx:75 | JavaScript `%` by 60 is the ordinary remainder, in 0..59, for non-negative seconds, and in -59..0 for negative ones |
| `SessionTimer.JsRemOdd` | components/games/rain.tsx:75 | JavaScript `%` truncates toward zero: negating the dividend negates the remainder |
| `SessionTimer.FormatTimeShape` | components/games/rain.tsx:73-77 | for seconds ≥ 0 the label is the decimal minutes, a colon, and a seconds field of exactly two digits reading `seconds % 60`, in 00..59 |
| `SessionTimer.FormatTimeRoundTrip` | components/games/rain.tsx:74-76 | reading an `m:ss` label back as 60·m + ss gives the seconds it was printed from |
| `SessionTimer.FormatTimeInjective` | components/games/rain.tsx:73-77 | distinct non-negative second counts get distinct labels |
| `Rain.Mounted` | components/games/rain.tsx:15-18 | the rain player mounts paused, volume 50, progress 0, with 300 seconds left |
| `Rain.SessionLabel` | components/games/rain.tsx:212-214 | the label for the session length reads `5:00` |
| `Rain.CountdownInRange` | components/games/rain.tsx:36-77 | whatever the user does, the remaining time stays in 0..300 and its label reads back to it |
| `Waves.Mounted` | components/games/waves.tsx:15-18 | the ocean-waves player mounts paused, volume 50, progress 0, with 300 seconds left |
| `Waves.SessionLabel` | components/games/waves.tsx:190-192 | the label for the session length reads `5:00` |
| `Waves.CountdownInRange` | components/games/waves.tsx:36-77 | whatever the user does, the remaining time stays in 0..300 and its label reads back to it |
| `JsText.NatToDecimal` | components/games/rain.tsx:76 | the decimal numeral of a number is all digits, one digit exactly below 10, with no leading zero |
| `JsText.DecimalRoundTrip` | components/games/rain.tsx:76 | the numeral of `n` reads back as `n` |
| `JsText.IntToString` | components/games/rain.tsx:76 | `toString` prints the decimal digits of a non-negative number, and a minus sign then the digits of its magnitude for a negative one; the digits read back as that value |
| `JsText.PadStart` | components/games/rain.tsx:76 | `padStart` leaves a long enough string alone and otherwise prefixes exactly the missing number of fill characters |
| `JsText.Utf16Length` | app/signup/page.tsx:25-26 | a string's JavaScript length is between its character count and twice that, and a single character counts two code units exactly when it lies above U+FFFF |
| `JsText.Utf16LengthAppend` | app/signup/page.tsx:25-26 | the code-unit length of a concatenation is the sum of the parts' lengths |
| `JsText.AstralUtf16Length` | app/signup/page.tsx:25-26 | a string of astral characters is twice as long in code units as in characters |
| `FormRules.AstralMinLength` | app/signup/page.tsx:25-26 | three emoji meet `.min(6)`, since each counts two code units |
| `JsText.Trim` | app/signup/page.tsx:23 | `trim` yields a slice of the input whose removed ends are white space and whose own ends are not |
| `JsText.TrimEmptyIff` | app/signup/page.tsx:23 | trimming yields the empty string exactly when the input is all white space |
| `JsText.TrimIdempotent` | app/signup/page.tsx:23 | trimming twice is trimming once |
| `EmotionScale.FirstNear` | app/page.tsx:67-68 | the found entry is within 15 of the score and no earlier entry is; no entry found means none is within 15 |
| `EmotionScale.Current` | app/page.tsx:67-68 | the current emotion is always a table entry |
| `EmotionScale.CurrentIsFirstNear` | app/page.tsx:68 | when some entry is within 15 the pick is within 15 and no later than it; when none is, the pick is the third entry |
| `EmotionScale.MatchIff` | app/page.tsx:67-68 | on the five standard anchors an entry matches exactly for scores -14..114, so the whole slider range 0..100 is matched |
| `EmotionScale.CurrentHighlighted` | app/page.tsx:127-135 | for a slider score the picked entry is one of the highlighted ones |
| `EmotionScale.AnchorSelfClassifies` | app/page.tsx:135 | an anchor's own value picks that anchor |
| `EmotionScale.OverlapPicksEarlier` | app/page.tsx:68 | two neighbours are highlighted together exactly on 11..14, 36..39, 61..64, 86..89, and there the earlier one is picked |
| `LandingPage.CurrentEmotion` | app/page.tsx:21-27 | the landing page's current emotion is one of its five entries and, on the slider, within 15 of the value |
| `LandingPage.ClickEmotion` | app/page.tsx:127-136 | clicking an emotion sets a slider value that picks and highlights that emotion |
| `LandingPage.SelectedIsHighlighted` | app/page.tsx:153-160 | every slider value is matched, so the fallback is never used on the slider, and the picked emotion is highlighted |
| `LandingPage.OverlapFirstWins` | app/page.tsx:130-134 | at 11..14 both 低落 and 还好 are highlighted and 低落 is picked |
| `LandingPage.InitialIsCalm` | app/page.tsx:60 | the initial value 50 picks 😌 平静 |
| `MoodForm.CurrentEmotion` | components/mood/mood-form.tsx:17-26 | the form's current emotion is one of its five entries and, on the slider, within 15 of the score |
| `MoodForm.ClickEmotion` | components/mood/mood-form.tsx:38-43 | clicking an emoji sets a score that picks it and shows it at full opacity |
| `MoodForm.MatchedOnSlider` | components/mood/mood-form.tsx:49-56 | a score is matched exactly in -14..114, so slider scores never reach the fallback, and the pick is at full opacity |
| `MoodForm.InitialIsCalm` | components/mood/mood-form.tsx:13 | the initial score 50 shows 😊 平静 |
| `FormRules.Check` | app/signup/page.tsx:23-26 | a field check raises no issue when its rule holds and exactly its one message on its field when it fails |
| `FormRules.Verdict` | app/signup/page.tsx:21-31 | a parse succeeds with the value exactly when no issue was raised, and otherwise fails with the issues |
| `FormRules.BmpMinLength` | app/login/page.tsx:23 | a string of at least n characters without astral characters meets `.min(n)` |
| `SignupForm.Validate` | app/signup/page.tsx:21-31 | sign-up succeeds exactly when the name is not all white space, the e-mail is valid, both passwords have at least 6 code units and they are equal; the accepted name is trimmed |
| `SignupForm.IssueIff` | app/signup/page.tsx:21-31 | each of the five rules raises its own message on its own field exactly when it fails, the mismatch on `confirmPassword` |
| `SignupForm.MismatchOnly` | app/signup/page.tsx:28-31 | with valid fields and different passwords the only issue is 两次密码不一致 on `confirmPassword` |
| `SignupForm.SixIsEnough` | app/signup/page.tsx:25-26 | any six-character password passes the length rule, astral characters included, and a five-character confirmation of one-unit characters fails it |
| `SignupForm.DefaultsRejected` | app/signup/page.tsx:36-41 | the empty default form is rejected, with the name issue among its issues |
| `LoginForm.Validate` | app/login/page.tsx:21-24 | login succeeds, with the values unchanged, exactly when the e-mail is valid and the password has at least 6 code units |
| `LoginForm.IssueIff` | app/login/page.tsx:22-23 | 请输入有效邮箱。 is raised exactly for an invalid e-mail and 密码至少 6 位。 exactly for a short password |
| `LoginForm.SixIsEnough` | app/login/page.tsx:23 | any six-character password passes the length rule, astral characters included |
| `LoginForm.DefaultsRejected` | app/login/page.tsx:27-33 | the empty default form is rejected for its password whatever the e-mail rule says |
| `AnxietyGames.FindIn` | components/games/anxiety-games.tsx:86 | lookup returns the first entry with the id, or nothing when no entry has it |
| `AnxietyGames.DescriptionFor` | components/games/anxiety-games.tsx:84-87 | the description reported is the catalogue entry's, or empty for an unknown id |
| `AnxietyGames.HandleGameStart` | components/games/anxiety-games.tsx:78-92 | a click selects the game and opens the dialog; the callback, when supplied, is called once with the id and its description; a rejection is only logged and the state stays set |
| `AnxietyGames.SetShowGame` | components/games/anxiety-games.tsx:161 | opening or closing the dialog keeps the selection |
| `AnxietyGames.RenderGame` | components/games/anxiety-games.tsx:94-107 | a game component is rendered exactly for `breathing`, `rain`, `forest` and `waves`, nothing for other ids or no selection, and each id gets its own component: breathing game, rain, forest, ocean waves |
| `AnxietyGames.DialogTitle` | components/games/anxiety-games.tsx:165 | the dialog has a title exactly when the selection is a catalogue id |
| `AnxietyGames.CatalogueIdsDistinct` | components/games/anxiety-games.tsx:31-68 | catalogue ids are pairwise distinct and each looks up its own entry |
| `AnxietyGames.RendererIffCatalogued` | components/games/anxiety-games.tsx:94-107 | an id has a game component exactly when it is in the catalogue |
| `AnxietyGames.InitialShowsNothing` | components/games/anxiety-games.tsx:75-76 | on mount no card is ringed and the dialog shows no game and no title |
| `AnxietyGames.StartShowsClickedGame` | components/games/anxiety-games.tsx:127-131 | clicking a card rings it, shows its game in the open dialog under its title, and reports its own description |
| `ChatRoute.Lookup` | app/api/chat/route.ts:22 | a parsed object's value for a key is its last member with that name, absent exactly when no member has it |
| `ChatRoute.Access` | app/api/chat/route.ts:29-30 | reading `body.model` or `body.input` throws exactly on `null`, is `undefined` on non-objects and on objects lacking that member |
| `ChatRoute.Coalesce` | app/api/chat/route.ts:29-30 | `??` keeps any value other than `undefined` and `null`, including `""`, and otherwise takes the default |
| `ChatRoute.TextReply` | app/api/chat/route.ts:33 | the success reply has status 200 and carries the generated text verbatim under `text`, or no member when the text is undefined |
| `ChatRoute.Post` | app/api/chat/route.ts:11-34 | without a non-empty key the reply is 500 with the missing-key message and no call is made; at most one call, exactly one when the key is set and the body is not `null`, with the environment's key; a 200 reply relays that call's text |
| `ChatRoute.MalformedIsEmptyObject` | app/api/chat/route.ts:20-25 | a body that does not parse is handled exactly as `{}` |
| `ChatRoute.ObjectBodyOneCall` | app/api/chat/route.ts:27-31 | with the key set and an object body exactly one call is made, with the body's model and input unless absent or null, else the defaults |
| `ChatRoute.DefaultsApplied` | app/api/chat/route.ts:8-9 | an empty or unparseable body asks `gemini-3-flash-preview` the default question |
| `ChatRoute.EmptyModelPassesThrough` | app/api/chat/route.ts:29 | an empty model name is passed on, not replaced |
| `ChatRoute.ReplyRelaysGenerator` | app/api/chat/route.ts:28-33 | for an object body, generated text is returned verbatim, and a generator failure escapes the handler instead of becoming a JSON error |
| `ChatRoute.Field` | app/api/chat/route.ts:29-30 | `body.model ?? default` and `body.input ?? default` on a non-null body: the member unless absent or null on an object, the default on any other kind of value |
| `ChatRoute.AnyBodyOneCall` | app/api/chat/route.ts:20-33 | with the key set, every body but `null` (arrays, strings, numbers and booleans included) makes exactly one call with the body's fields or the defaults; the text is relayed and a generator failure escapes the handler |
| `ChatRoute.NullBodyCrashes` | app/api/chat/route.ts:20-29 | as written, the body `null` parses, then reading `body.model` throws, and no call is made |
| `ChatRoute.PostCorrected` | app/api/chat/route.ts:20-31 | corrected, every request that finds the key set makes exactly one generation call; the key guard is kept and every body but `null` is handled as before |

## Left out

- Audio playback (`new Audio`, play, pause, volume, loop) and every animation (`motion`, `useAnimation`, the breath cycle): browser I/O and presentation.
- `setInterval` and effect scheduling: a tick is a discrete guarded step; real time, interval re-arming and React's batching are not modelled.
- Floating-point arithmetic: progress is an exact rational, and JSON numbers are integers.
- JsText.IntToString: numbers are unbounded integers here; JavaScript switches to exponent notation from 10^21 and loses integer precision above 2^53, and the 0..300 seconds `formatTime` receives reach neither.
- The `Slider` component: slider values are assumed to be integers in 0..100, as configured.
- The e-mail pattern of zod: `isEmail` is a caller-supplied predicate.
- react-hook-form: how issues are attached to inputs and shown (first message per field), and the sign-up page's field wiring, are rendering; only the schemas are modelled.
- Submit handlers (they only write to the console) and the mood form's unused loading flag and save button.
- The labels' `split(" ")` into emoji and word on the landing page: rendering of a fixed table.
- The Gemini SDK: a function from request to outcome; retries, timeouts and streaming inside it are not modelled.
- Next.js's treatment of an exception escaping the handler: modelled only as `Unhandled`.
- The chat screen's session logic (message history, regenerate, attachments, model and web-search toggles) in app/therapy/[sessionId]/page.tsx: it is not part of this model.
- The dashboard page, the header menu, the activity logger and the animated icon: presentation with no logic to model.

## Findings

| source | as written | input that shows it | evidently intended | confidence | as-written member | corrected member |
|---|---|---|---|---|---|---|
| app/api/chat/route.ts:20-30 | a body that parses as JSON `null` is kept, and `body.model` then throws a `TypeError`, so the request fails without a JSON reply | request body `null` with the key set | a body with no usable fields falls back to `{}`, as an unparseable one does, and the defaults are used | medium; not executed | `ChatRoute.NullBodyCrashes` | `ChatRoute.PostCorrected` |
