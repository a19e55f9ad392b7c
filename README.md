# Valentines card — a Dafny model

This project models the logic behind a two-page greeting card website with three parts:

- **Proposal** (`script.js`): a Yes/No prompt. Each No click makes the
  Yes button larger and pushes the No button aside. The four "Wait..."
  stages appear on clicks 1 to 4. On click 5 the card locks into the
  "Please?" stage and the No button is removed. Clicking Yes moves to the
  final stage, and that move is one-way.
- **Memories** (`memories.js`): a stack of photos. A click, Enter or Space
  dismisses a photo. A mostly horizontal swipe dismisses the top photo.
  A dismissed photo fades out, and 260 ms later it leaves the document.
  When no photo is left, the panel underneath is revealed and its
  continue link gets the focus.
- **Music** (`music.js`): background music that keeps playing across the
  pages of one visit. Session storage holds two things: whether the song
  should play, and the playback offset. A fresh open of the index page
  clears both and starts the song from 0 after three seconds. Any page
  whose session already has the song playing resumes at the saved offset.
  While the song should play and is not paused, every page saves the
  offset every 500 ms and on `pagehide`.

Files:

- `wrappers.dfy`: the shared `Option` type and the `Abs` and `MaxReal` helpers.
- `proposal.dfy`, module `Proposal`. The pure state machine is `Machine`,
  with `OnNo`, `OnYes` and `Run`; `Consistent` is its invariant. It
  abstracts the class `Card`, which holds the script's globals and the
  rendered state of the card. Every handler of `Card` is proved to move
  `Model()` exactly as the machine does, and to keep `Valid()`. `Valid()`
  ties every rendered detail to the click count: stage text, active gif,
  both scales, the No button's push and the layout classes.
- `memories.dfy`, module `Memories`.
  - Pure functions on `Photos` describe what dismissing a photo does
    (`Vanished`) and what its removal timer does (`Removed`).
  - The class `PhotoStack` holds the document's photos and the closure
    state of `bindStack`. Its event handlers are proved against those
    functions.
  - Each timer (the 260 ms removal and the zero-delay clearing of the
    click suppression) is an explicit method the environment calls, in
    the order the timers were set.
- `music.dfy`, module `Music`.
  - JavaScript numbers are modelled as exact decimals. Over them the
    module defines `Number.parseFloat` (`ParseFloat`) and `String(time)`
    for non-negative times (`FormatTime`), and proves that a saved time
    reads back unchanged.
  - The class `Player` holds session storage, `shouldPlay` and the audio
    element. Seeks, play requests and the scheduled start are recorded as
    a list of effects. The browser's own changes to the element arrive
    through `MediaChanged`, which models no line of the source.

Two details of the code:

- **Seeking.** Resuming also seeks while the element is paused
  (`music.js:97`), not only when it has drifted from the saved offset, and
  the model follows that.
- **`resetAll`.** `resetAll` (`script.js:208`) is never called in
  `script.js`. The model keeps it as `Card.ResetAll` and as the `Reset`
  event of `Run`.

## Model

| member | source | states |
|---|---|---|
| Proposal.YesScale | script.js:111 | The Yes scale is at least 1, and it is exactly 1 only before the first No click. |
| Proposal.NoScale | script.js:115 | The No scale stays between its 0.45 floor and 1, and it is 1 only before the first No click. |
| Proposal.PushX | script.js:119 | The horizontal push is between 0 and 120 px and at most 18 px per click; it is 0 only with no clicks. |
| Proposal.PushY | script.js:120 | The vertical push is between 0 and 28 px and at most 4 px per click; it is 0 only with no clicks. |
| Proposal.ScalesMonotone | script.js:110-121 | With more No clicks, Yes is strictly larger, No is never larger, and both pushes never decrease. |
| Proposal.StageOf | script.js:126-132 | The stage shown is always in the table. It is the final stage exactly when Yes was clicked. Otherwise it is the click count for 0 to 4 clicks and the locked stage from 5 clicks on. |
| Proposal.OnNo | script.js:102-142 | In the final stage a No click changes nothing. Otherwise the count goes up by one and the button survives only while the count is below 5. |
| Proposal.OnYes | script.js:147-152 | A Yes click always ends in the final stage and leaves the click count and the No button alone. |
| Proposal.YesIdempotent | script.js:148 | A second Yes click changes nothing, and the stage shown is the final one. |
| Proposal.DeliverKeepsConsistent | script.js:131-138 | Any single event keeps the invariant: at most 5 clicks, and the No button present exactly while there are fewer than 5. |
| Proposal.Deliver | script.js:102-176 | One No or Yes click never lowers the count and raises it by at most one. A final state stays final and unchanged, a No click on a removed button does nothing, and a reset returns to the start. |
| Proposal.Run | script.js:102-176 | A sequence of clicks without a reset raises the count by at most one per click and never leaves the final stage. |
| Proposal.RunKeepsConsistent | script.js:102-176 | Any sequence of events keeps that invariant. |
| Proposal.AfterNoClicks | script.js:124-142 | From the start, k No clicks show stage k for k up to 4 with the button still present. Five or more clicks show the locked stage with the button gone and the count held at 5. |
| Proposal.FinalIsAbsorbing | script.js:103-148 | Once in the final stage, no sequence of No and Yes clicks changes the state. |
| Proposal.Card.constructor | script.js:59-86 | On load the state is the machine's start state with stage 0 on screen, and every rendered detail agrees with it. |
| Proposal.Card.SetStage | script.js:181-190 | The card shows stage i: its stage number, title and subtitle. Exactly the gifs whose key is the stage's key are active. |
| Proposal.Card.HandleNoClick | script.js:102-145 | A No click moves the model as OnNo does and keeps every rendered detail consistent. In the final stage nothing changes; otherwise Yes grows and No does not. |
| Proposal.Card.HandleYesClick | script.js:147-176 | A Yes click moves the model as OnYes does. It shows the final stage, hides the action row and reveals the replay button. |
| Proposal.Card.ResetAll | script.js:208-251 | The card returns to the start state: stage 0, both scales 1, a visible un-pushed No button, the action row shown and the replay button hidden. |
| Memories.TopPhoto | memories.js:83-87 | There is no top photo exactly when the stack is empty; otherwise it is the last photo in document order. |
| Memories.SwipeExamples | memories.js:128-131 | Concrete releases the swipe rule accepts and rejects: too short, too steep, or not moved. |
| Memories.SwipeIsMirrorSymmetric | memories.js:115-131 | Mirroring a gesture left to right or top to bottom does not change whether it is a swipe. |
| Memories.Moves | memories.js:109 | A pointer has moved once the larger of its two offsets exceeds the 6 px slop. |
| Memories.IsSwipe | memories.js:129-131 | A swipe has moved beyond the slop, covers at least the minimum horizontal distance, and is no steeper than the ratio allows. A moved gesture at least that long and no steeper than 45 degrees always is one. |
| Memories.IsActivationKey | memories.js:65 | Exactly Enter and Space activate a photo. |
| Memories.ExitOffset | memories.js:142 | The exit offset is 140 px or -140 px, and it is positive exactly when the swipe went right. |
| Memories.Without | memories.js:42 | Removing a photo leaves exactly the other photos. It changes nothing when the photo is absent, keeps the photos distinct, and shortens the stack by one. |
| Memories.WithoutAt | memories.js:42 | Removing the photo at position i splices it out and keeps the order of the rest. |
| Memories.Vanished | memories.js:35-37 | Dismissing a missing photo or one already fading changes nothing. Otherwise the photo starts fading and its removal is queued last; the stack itself is unchanged. |
| Memories.VanishIdempotent | memories.js:36 | Dismissing the same photo twice is the same as dismissing it once. |
| Memories.VanishedKeepsWellFormed | memories.js:35-44 | Dismissing a photo of the stack keeps the bookkeeping sound: queued removals are distinct and are exactly the fading photos, all still in the stack. |
| Memories.Removed | memories.js:41-43 | A removal timer takes the oldest queued photo off the queue and out of the fading set. |
| Memories.RemovedSplicesOut | memories.js:41-43 | The removed photo is spliced out of the stack at its position, which makes the stack one shorter and keeps the bookkeeping sound. |
| Memories.PhotoStack.constructor | memories.js:47-78 | Binding starts with the given photos, the given panel and continue link, nothing fading or queued, no pointer tracked or moved, no swipe offsets, clicks not suppressed, and nothing revealed or focused. |
| Memories.PhotoStack.Vanish | memories.js:35-45 | The stack changes exactly as Vanished says. |
| Memories.PhotoStack.FinishVanish | memories.js:41-44 | The stack changes exactly as Removed says. The panel underneath is revealed once the stack is empty and stays revealed. |
| Memories.PhotoStack.MaybeRevealUnder | memories.js:22-33 | The panel is revealed when no photo is left and it exists, and the continue link is then focused if there is one. |
| Memories.PhotoStack.Click | memories.js:56-63 | A click dismisses the photo unless clicks are suppressed right after a swipe. |
| Memories.PhotoStack.KeyDown | memories.js:64-69 | Enter or Space dismisses the photo; any other key does nothing. |
| Memories.PhotoStack.PointerDown | memories.js:89-103 | A press is ignored while a pointer is tracked or when it is not the primary button. Otherwise the pointer and its start point are recorded. |
| Memories.PhotoStack.PointerMove | memories.js:105-110 | The gesture counts as moved once the tracked pointer has travelled beyond the slop. |
| Memories.PhotoStack.PointerUp | memories.js:112-146 | A release by the tracked pointer stops tracking it. A qualifying swipe suppresses the next click, gives the top photo its exit offset and dismisses it; any other release leaves the stack alone. |
| Memories.PhotoStack.PointerCancel | memories.js:147-155 | Cancelling the tracked pointer stops tracking it; any other pointer is ignored. |
| Memories.PhotoStack.NextTick | memories.js:138-140 | The zero-delay timer re-enables clicks. |
| Music.TrimStart | music.js:27 | The result is the input without its leading white space, and it does not start with white space. |
| Music.LeadingDigits | music.js:27 | The result is the longest run of decimal digits at the start of the text. |
| Music.ParseUnsigned | music.js:27 | Text with no sign in front never parses to a negative number. Text starting with a digit is a decimal, and text that cannot begin a number is NaN. |
| Music.ParseFloat | music.js:27 | After the leading white space, a minus sign makes the result negative and nothing else does. A leading digit gives a decimal. Empty text, or text whose first character cannot begin a number, gives NaN. |
| Music.ParseFloatOfDigitText | music.js:27 | Text starting with a digit parses to its leading digits plus the fraction digits after a point, if there is one. |
| Music.TrimStartSkipsWhiteSpace | music.js:27 | Leading white space does not change what trimming gives. |
| Music.ParseFloatSkipsWhiteSpace | music.js:27 | Leading white space does not change what parseFloat gives. |
| Music.FormatTime | music.js:33 | A saved time is written as non-empty text that starts with a digit. |
| Music.NatDigits | music.js:33 | The digits written for a whole number spell that number, with no leading zero. Zero is the single digit 0. |
| Music.ShowDigits | music.js:33 | Each digit is written as its own character, one per digit. |
| Music.LeadingDigitsOfShow | music.js:27-33 | Reading back written digits stops exactly where they end. |
| Music.FormatTimeRoundTrip | music.js:25-34 | Parsing the text written for a non-negative time gives back its digits and its value. |
| Music.SavedTime | music.js:25-29 | The saved time is always finite and non-negative. A non-zero result comes only from the stored text. A missing, empty, non-numeric, infinite or negative entry gives 0. |
| Music.SavedTimeOfText | music.js:26-28 | Non-empty stored text counts exactly when it parses to a finite, non-negative number. |
| Music.NegativeTextReadsAsZero | music.js:28 | Stored text with a minus sign always reads as time 0. |
| Music.InfinityTextReadsAsZero | music.js:28 | A stored infinity reads as 0. |
| Music.NonNumericTextReadsAsZero | music.js:27-28 | Stored text that cannot begin a number reads as 0. |
| Music.StoreTime | music.js:31-34 | A finite, non-negative time is written so that it reads back with the same value, and no other key changes. Any other time leaves storage untouched. |
| Music.SavedTimeRoundTrip | music.js:25-34 | What setSavedTime writes, getSavedTime reads back with the same value. |
| Music.ZeroStored | music.js:113 | Saving time 0 writes "0", which reads back as 0. |
| Music.ShouldPlayFrom | music.js:71 | The song should play only when the flag is stored as "1"; a missing flag or any other text means it should not. |
| Music.Lower | music.js:16 | Lower-casing keeps the length of the path, maps each upper-case ASCII letter to its lower-case form, leaves no upper-case letter, and changes no other character. |
| Music.IsIndexPage | music.js:15-23 | A page is the index page exactly when some tail of its path is, ignoring case, "/index.html", "/index.htm", "/" or a backslash. |
| Music.IsIndexPageIgnoresCase | music.js:16 | Lower-casing the path first changes nothing. |
| Music.IndexPageExamples | music.js:15-23 | An upper-case "INDEX.HTML" path and the root path are both the index page. |
| Music.OtherPageExample | music.js:15-23 | The memories page is not the index page. |
| Music.NavigationType | music.js:62-63 | The navigation type is the entry's type when it has one, and "navigate" when there is no entry. |
| Music.IsFreshOpen | music.js:64-65 | Only the index page can be a fresh open. It is one when there is no referrer or the navigation is a reload, and not otherwise. |
| Music.ClearOnFreshOpen | music.js:66-69 | A fresh open removes both music keys and nothing else; otherwise storage is unchanged. |
| Music.StartupAction | music.js:119-125 | The index page without the flag schedules the start. Any page with the flag resumes. Any other page does nothing. |
| Music.FreshOpenStartsOver | music.js:64-122 | A fresh open of the index page, with no referrer or by a reload, clears the flag and the saved time and schedules a start from 0. |
| Music.OtherPageResumes | music.js:64-125 | On any other page the session's state is kept, so a playing song is resumed. |
| Music.OrZero | music.js:130 | NaN and zero read as 0, an infinity and a non-zero finite position are kept, and the value never changes. |
| Music.FarFrom | music.js:97 | An infinite position is always far. A finite one is far when it is more than one second from the wanted time, and NaN counts as position 0. |
| Music.SeekNeeded | music.js:97 | A seek happens exactly when the element is paused, or its position (NaN counting as 0) is infinite or more than one second from the saved time. |
| Music.Player.constructor | music.js:56-125 | On load: the volume is set; a fresh open clears storage; the flag is read. Then the start is scheduled, playback resumes at the saved time, or nothing happens, as StartupAction says. |
| Music.Player.SetTimeSafe | music.js:73-89 | The element is positioned at the given time. |
| Music.Player.SetSavedTime | music.js:31-34 | Storage changes exactly as StoreTime says. |
| Music.Player.PlayAtSavedTime | music.js:91-108 | Nothing happens unless the song should play. Otherwise the element seeks to the saved time when needed, gets the volume, and is asked to play; it plays unless the browser blocks it. |
| Music.Player.StartFromBeginning | music.js:110-116 | The flag is set and the time saved as "0". The element is positioned at 0 and asked to play. |
| Music.Player.PersistTime | music.js:127-131 | The position is saved only while the song should play and the element is not paused. |
| Music.Player.Unlock | music.js:138-142 | The first pointer press and the first key press each retry playback once: a seek when needed, the volume, and a play request. A later press, or a song that should not play, changes nothing. |
| Music.Player.VisibilityChanged | music.js:145-149 | Coming back to the tab retries playback, with the seek, volume and play request of PlayAtSavedTime. Hiding the tab changes nothing. |

## Left out

- Background hearts, the confetti burst and `pulseCard`: these are random decorations and CSS animation restarts, with no state the logic reads.
- Page fades and navigation (`pageFadeIn`, `navigateWithFade`, the replay and continue links): these are timers and URLs that leave the page.
- Inline CSS details are not modelled: the Yes button's `btn-yes` and `btn-no` classes and its margin in the final stage, `justifyContent`, the button labels, and the No button's `trapped` class in `resetAll`.
- Proposal.Card.HandleNoClick: requires the No button to be present, because the source binds the handler to that button and a removed button receives no clicks.
- Proposal.Card.HandleNoClick: the script's two separate `if` statements are kept. On click 5 the second one shows the locked stage.
- Pointer capture and release, and `preventDefault` and `stopPropagation`: each is a browser call whose failure the source ignores.
- Memories.PhotoStack.constructor: requires the photos to be distinct, as document elements are. A page with no photos is modelled as `bound` being false, and every handler then does nothing. This corresponds to the early return in `bindStack`.
- Memories.PhotoStack: photos are ids in document order, and the source's `querySelectorAll` is read as that sequence.
- Memories.PhotoStack.FinishVanish: removal timers fire in the order they were set. All of them wait 260 ms, so that is the browser's order.
- The audio element is a value, not a live object, so events the browser raises on its own are not modelled:
  - `play()` is modelled as succeeding at once unless `blocked` says it is refused;
  - no `loadedmetadata` retry happens when setting `currentTime` fails;
  - the element picked or created by `ensureAudio` is an input.
- `setInterval` and the event listeners: the page runs `Player.PersistTime` every 500 ms and on `pagehide`, and the model does not represent that schedule.
- Numbers are exact decimals, not IEEE doubles, so rounding is not modelled. Times in seconds are far from the precision limit.
- Music.ParseFloat: exponents such as "1e3" are not read, and the model stops at the "e".
- Music.ParseFloat: white space covers the ASCII spaces, U+00A0, U+FEFF, U+2028 and U+2029, but not the other Unicode space separators.
- Music.FormatTime: writes the digits the number carries. JavaScript writes the shortest round-tripping decimal, so the two differ on trailing zeros in the fraction and on exponent notation for very small or very large values. The round trip holds for both.
- Music.Lower: lower-cases only ASCII letters; `toLowerCase` also maps other scripts. The index-page names are ASCII.
- `MUSIC_SRC` and the audio element's layout styles: these are static setup that the logic never reads.
