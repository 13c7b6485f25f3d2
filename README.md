# Portfolio site interaction rules, modelled in Dafny

This project models the small pieces of logic buried in the components of a
personal portfolio site written in React. Everything else those components do
is animation and markup. The pieces are:

- the header's sound control, a state machine over the current track and the
  flags playing, locked, hovering, menuOpen, hint and unlocked;
- the work-history tabs, whose content stack moves the clicked tab to the top;
- the sticky-scroll work list:
  - choosing the active card as the nearest scroll breakpoint;
  - picking the preview gradient;
  - parsing each entry's description into a first line and bullets;
- skill icons: the key normalisation, the icon table lookup with a local
  fallback, the dark-icon set and the "humanize" label;
- the role card: the accent colour, the "date • location" split, the chip
  selection and the two meta toggles;
- the header's scroll-spy: mini mode, the active link, click navigation and
  the IntersectionObserver callback;
- the About section's rotating word: one span per letter, the glitch morph and
  its timer cycle;
- the loader's greeting cycle and its letter rows.

Component state that handlers change step by step is a Dafny `class`. Its
handlers are methods with `modifies` clauses, and its invariant is `Valid()`.
Derivations that only compute a value are functions, with lemmas about them.

Strings are sequences of Unicode code points, so `Array.from` splits a greeting
exactly as `Letters` does. The module `Text` models the JavaScript built-ins the
components rely on:

- `String.prototype.split` with a string separator, and `Array.prototype.join`;
- `trim` and the white-space class `\s`;
- the ASCII part of `toLowerCase`;
- `findIndex`;
- number-to-string conversion.

The browser is replaced by explicit inputs:

- whether `audio.play()` is accepted is a parameter;
- the document's elements are a set of ids;
- the random picks are indices;
- a pending timer is an id.

## Model

| member | source | states |
|---|---|---|
| Text.Lower | components/Skills/SkillIcon.jsx:96 | lower-casing keeps the length and maps each character on its own |
| Text.TrimStart | components/Skills/SkillIcon.jsx:97 | the result is a suffix; only white space was removed; it does not start with white space |
| Text.TrimEnd | components/Skills/SkillIcon.jsx:97 | the result is a prefix; only white space was removed; it does not end with white space |
| Text.Trim | components/Skills/SkillIcon.jsx:97 | the result is an infix with only white space outside it, and it neither starts nor ends with white space |
| Text.TrimIdempotent | components/Skills/SkillIcon.jsx:97 | trimming an already trimmed string changes nothing |
| Text.Find | components/Header/SoundBar/SoundBar.js:153 | the first index whose element satisfies the test, or none when no element does |
| Text.SplitOn | components/Work/RoleCard.js:50 | splitting always yields at least one piece |
| Text.Join | components/Work/StickyScroll/StickyScroll.js:149 | an empty list joins to ""; the joined string starts with the first part and ends with the last |
| Text.SplitJoinRoundTrip | components/Work/StickyScroll/StickyScroll.js:146-149 | joining the pieces of a split with the separator gives the string back |
| Text.NonEmpty | components/Work/StickyScroll/StickyScroll.js:26 | `.filter(Boolean)` keeps only non-empty strings, and a string appears in the result iff it is a non-empty part |
| Text.NonEmptySingle | components/Work/StickyScroll/StickyScroll.js:26 | a single part is kept iff it is non-empty |
| Text.NonEmptyAppend | components/Work/StickyScroll/StickyScroll.js:26 | filtering a concatenation is the concatenation of the filtered halves, so the kept parts stay in order |
| Text.NonEmptyKeeps | components/Work/StickyScroll/StickyScroll.js:26 | filtering a list with no empty string returns the list unchanged |
| Text.NoOccurrenceInTail | components/Work/RoleCard.js:50 | a string without the separator has none in its tail either |
| Text.SplitNoSep | components/Work/RoleCard.js:50-51 | a string without the separator splits into itself alone |
| Text.SplitConcat | components/Work/RoleCard.js:50-51 | `d + sep + l` splits into `d` followed by the pieces of `l`, when `sep` first occurs right after `d` |
| Text.SplitPiecesFree | components/Work/StickyScroll/StickyScroll.js:26 | no piece of a split on a one-character separator contains that character |
| Text.NoCharNoOccurrence | components/Work/StickyScroll/StickyScroll.js:146 | a string without the character does not contain the one-character separator |
| Text.JoinSplitPieces | components/Work/StickyScroll/StickyScroll.js:146-149 | pieces free of `c`, empty ones included, joined with `c`, split back into exactly those pieces |
| Text.JoinSplitRoundTrip | components/Work/StickyScroll/StickyScroll.js:145-149 | non-empty lines free of `c`, joined with `c`, re-split on `c` and filtered, come back exactly |
| Text.NatToString | components/Loader/Loader.js:66-67 | a number prints as a non-empty string of decimal digits with no leading zero |
| Text.ParseNatRoundTrip | components/Loader/Loader.js:66-67 | parsing the printed number gives the number back, so printing is injective |
| SoundBar.PickedTrack | components/Header/SoundBar/SoundBar.js:153 | the picked track is one of TRACKS, and it is either the track with that id or TRACKS[0] |
| SoundBar.TrackIdsDistinct | components/Header/SoundBar/SoundBar.js:4-26 | the three track ids are distinct; a fact about the constant list, used by PickedTrackExact and MenuMarksOne |
| SoundBar.PickedTrackExact | components/Header/SoundBar/SoundBar.js:153 | a listed id picks exactly its own track; an unlisted id picks TRACKS[0] |
| SoundBar.MenuMarksOne | components/Header/SoundBar/SoundBar.js:222-229 | for any current track drawn from the list, the open menu marks exactly one entry, the current track's; proved from TrackIdsDistinct |
| SoundBar.Tooltip | components/Header/SoundBar/SoundBar.js:165-171 | each of the four messages appears exactly when its condition holds, checked in priority order not unlocked, locked, playing, other |
| SoundBar.SoundBar.constructor | components/Header/SoundBar/SoundBar.js:32-38 | the start state is TRACKS[0] with every flag false |
| SoundBar.SoundBar.CurrentTooltip | components/Header/SoundBar/SoundBar.js:165-171 | in a valid state a locked control always shows the locked message, and a playing unlocked one the playing message |
| SoundBar.SoundBar.Unlock | components/Header/SoundBar/SoundBar.js:41-44 | the first gesture sets `unlocked`; no handler ever clears it |
| SoundBar.SoundBar.Play | components/Header/SoundBar/SoundBar.js:90-99 | an accepted `play()` sets `playing`; a rejected one leaves it unchanged |
| SoundBar.SoundBar.Pause | components/Header/SoundBar/SoundBar.js:101-106 | `pause()` always clears `playing` |
| SoundBar.SoundBar.OnEnter | components/Header/SoundBar/SoundBar.js:109-112 | sets hovering; plays only when unlocked and not locked; while locked `playing` does not change |
| SoundBar.SoundBar.OnLeave | components/Header/SoundBar/SoundBar.js:113-116 | clears hovering; pauses only when unlocked and not locked; while locked `playing` does not change |
| SoundBar.SoundBar.OnToggleLock | components/Header/SoundBar/SoundBar.js:119-128 | `unlocked` becomes true and `locked` is negated; unlocking the lock stops playback; locking plays if accepted |
| SoundBar.SoundBar.ToggleMenu | components/Header/SoundBar/SoundBar.js:131 | flips `menuOpen` |
| SoundBar.SoundBar.OnDocumentPress | components/Header/SoundBar/SoundBar.js:136-139 | a press outside the control closes the menu; nothing opens it |
| SoundBar.SoundBar.OnKeyDown | components/Header/SoundBar/SoundBar.js:140 | Escape closes the menu; nothing opens it |
| SoundBar.SoundBar.OnPickTrack | components/Header/SoundBar/SoundBar.js:152-158 | selects PickedTrack(id), stops playback, locks, closes the menu and unlocks; the invariant locked ⇒ unlocked holds throughout |
| Tabs.MoveToFrontAt | components/Work/Tabs/Tabs.js:104-106 | after a click, the clicked tab is first, the tabs before it are shifted down by one, and the tabs after it keep their places |
| Tabs.MoveToFront | components/Work/Tabs/Tabs.js:104-106 | the stack after a click is as long as the list and has the clicked tab on top |
| Tabs.MoveToFrontPermutes | components/Work/Tabs/Tabs.js:104-107 | the new stack is a permutation of the tab list |
| Tabs.MoveToFrontKeepsOrder | components/Work/Tabs/Tabs.js:104-106 | any two tabs other than the clicked one keep their relative order |
| Tabs.MoveFirstToFront | components/Work/Tabs/Tabs.js:104-106 | clicking the first tab restores the original order |
| Tabs.MoveToFrontInPlace | components/Work/Tabs/Tabs.js:104-106 | the in-place splice and unshift leave the array equal to MoveToFront of its old contents |
| Tabs.IsActive | components/Work/Tabs/Tabs.js:9 | the active tab's own button is highlighted |
| Tabs.ExactlyOneActive | components/Work/Tabs/Tabs.js:9 | with distinct values, the active tab highlights exactly its own button |
| Tabs.StackStyle | components/Work/Tabs/Tabs.js:78-81 | the top entry is full size, in place and opaque; no entry is enlarged; only a hovered stack fans out |
| Tabs.StackStyleOrder | components/Work/Tabs/Tabs.js:78-81 | deeper entries have a lower z-index, are smaller and are no more opaque; the entry at depth `j` is visible iff `j < 3` |
| Tabs.Tabs.constructor | components/Work/Tabs/Tabs.js:99-101 | the stack starts as the tab list, with its first tab active and nothing hovered |
| Tabs.Tabs.HandleOnClick | components/Work/Tabs/Tabs.js:103-109 | the stack becomes MoveToFront of the original list, whatever it was before, and the active tab is the clicked one; the stack stays a permutation topped by the active tab |
| Tabs.Tabs.SetHovering | components/Work/Tabs/Tabs.js:19-20 | records the hover flag |
| StickyScroll.Breakpoints | components/Work/StickyScroll/StickyScroll.js:93 | there is one breakpoint per card |
| StickyScroll.ReduceClosest | components/Work/StickyScroll/StickyScroll.js:94-98 | the reduce ends at the nearest breakpoint, and on a tie at the earliest one |
| StickyScroll.Closest | components/Work/StickyScroll/StickyScroll.js:93-98 | the chosen index is in range, and it is the earliest of the nearest breakpoints |
| StickyScroll.FirstNearestUnique | components/Work/StickyScroll/StickyScroll.js:94-98 | only one index is the earliest nearest breakpoint |
| StickyScroll.BreakpointsIncrease | components/Work/StickyScroll/StickyScroll.js:93 | the breakpoints increase strictly |
| StickyScroll.ClosestAtBreakpoint | components/Work/StickyScroll/StickyScroll.js:91-99 | scrolled exactly onto breakpoint `i`, card `i` becomes active |
| StickyScroll.Gradient | components/Work/StickyScroll/StickyScroll.js:103-104 | the gradient is entry `activeCard mod 3`; the fallback is never needed |
| StickyScroll.Background | components/Work/StickyScroll/StickyScroll.js:131-132 | every card gets the black background |
| StickyScroll.StripBullet | components/Work/StickyScroll/StickyScroll.js:30 | the result is a suffix of the line; exactly one character is removed for a leading bullet, two when white space follows it, and none otherwise |
| StickyScroll.StripBulletOnce | components/Work/StickyScroll/StickyScroll.js:30 | a second bullet is kept, because only one prefix is stripped |
| StickyScroll.Lines | components/Work/StickyScroll/StickyScroll.js:26 | every line kept is non-empty and contains no newline |
| StickyScroll.SplitPiecesFreeNonEmpty | components/Work/StickyScroll/StickyScroll.js:26 | filtering keeps the pieces free of newlines |
| StickyScroll.LinesOfPieces | components/Work/StickyScroll/StickyScroll.js:26 | a text made of newline-free pieces, blank ones included, has exactly the non-empty pieces as its lines, in order |
| StickyScroll.MapStrip | components/Work/StickyScroll/StickyScroll.js:29-30 | one cleaned bullet per line, in order |
| StickyScroll.Description | components/Work/StickyScroll/StickyScroll.js:24-30 | an empty text renders nothing; otherwise there is one bullet per line of `Lines`, the first line included, with its bullet prefix stripped |
| StickyScroll.DescriptionOfPieces | components/Work/StickyScroll/StickyScroll.js:24-30 | a non-empty text made of newline-free pieces has one stripped bullet per non-empty piece, in order; blank lines add no bullet |
| StickyScroll.DescriptionSkipsBlankLine | components/Work/StickyScroll/StickyScroll.js:24-30 | "• a", a blank line and "• b" render as the two bullets "a" and "b" |
| StickyScroll.BlankLineFiltered | components/Work/StickyScroll/StickyScroll.js:26 | the blank line between two bullet lines is filtered out |
| StickyScroll.BlankLineStripped | components/Work/StickyScroll/StickyScroll.js:30 | "• a" and "• b" lose their bullet and the space after it |
| StickyScroll.SplitEntry | components/Work/StickyScroll/StickyScroll.js:145-149 | the first line exists iff the description has a line, and it is that line stripped; the rest is empty iff there is at most one line |
| StickyScroll.RestRoundTrip | components/Work/StickyScroll/StickyScroll.js:145-149 | re-splitting the joined rest gives exactly the lines after the first |
| StickyScroll.EntryBullets | components/Work/StickyScroll/StickyScroll.js:145-149 | with two lines or more, the bullets are the description lines after the first, each stripped; with one line or none, no bullet list is rendered |
| StickyScroll.PreviewFor | components/Work/StickyScroll/StickyScroll.js:192-194 | the preview shows the active item's content when there is some, otherwise the placeholder |
| StickyScroll.StickyScroll.constructor | components/Work/StickyScroll/StickyScroll.js:89 | the first card starts active |
| StickyScroll.StickyScroll.OnScrollChange | components/Work/StickyScroll/StickyScroll.js:91-99 | with no cards the active card is unchanged; otherwise it becomes the earliest nearest breakpoint |
| SkillIcon.Key | components/Skills/SkillIcon.jsx:95-97 | a missing name gives ""; a present one gives `Trim(Lower(name))`; the key has no upper-case ASCII letter and no white space at either end |
| SkillIcon.LowerNoUpper | components/Skills/SkillIcon.jsx:96 | a lower-cased string has no upper-case ASCII letter |
| SkillIcon.TrimNoUpper | components/Skills/SkillIcon.jsx:97 | trimming adds no upper-case letter |
| SkillIcon.KeyIdempotent | components/Skills/SkillIcon.jsx:95-97 | normalising a key again changes nothing |
| SkillIcon.KeyOfNormalName | components/Skills/SkillIcon.jsx:95-97 | a lower-case, trimmed name is its own key |
| SkillIcon.LocalPath | components/Skills/SkillIcon.jsx:125 | the fallback is the key between "/skills/" and ".svg" |
| SkillIcon.IconSource | components/Skills/SkillIcon.jsx:98-130 | a table URL iff the key is in the table; otherwise "/skills/" + key + ".svg" |
| SkillIcon.IconSourceAsWritten | components/Skills/SkillIcon.jsx:98-130 | the plain-object lookup as written, which also finds inherited members |
| SkillIcon.ConstructorKeyAsWritten | components/Skills/SkillIcon.jsx:98-130 | the key "constructor" takes the CDN branch with a non-URL value as written, and the own-entry lookup gives it the local path |
| SkillIcon.ConstructorPath | components/Skills/SkillIcon.jsx:125 | the own-entries fallback for "constructor" is "/skills/constructor.svg" |
| SkillIcon.AsWrittenAgreesElsewhere | components/Skills/SkillIcon.jsx:98-130 | the two lookups agree on every key other than the two inherited member names |
| SkillIcon.SpaceDashes | components/Skills/SkillIcon.jsx:102 | each `-` and `_` becomes a space, one for one |
| SkillIcon.CapitalizeWords | components/Skills/SkillIcon.jsx:103 | the scan keeps the length and leaves every non-word character unchanged |
| SkillIcon.Humanize | components/Skills/SkillIcon.jsx:90-92 | `humanize` keeps the length and turns every `-` and `_` into a space |
| SkillIcon.CapitalizeWordsAt | components/Skills/SkillIcon.jsx:103 | the capitalising scan keeps the length and upper-cases exactly the word characters that follow a boundary |
| SkillIcon.HumanizeAt | components/Skills/SkillIcon.jsx:90-103 | the label keeps the name's length; a character is upper-cased iff it starts a word; `-` and `_` become spaces; every other character is unchanged |
| SkillIcon.Label | components/Skills/SkillIcon.jsx:100-103 | a missing name gives the empty label; otherwise the label is as long as the name |
| SkillIcon.SkillIcon | components/Skills/SkillIcon.jsx:94-134 | alt text, aria-label and tooltip all equal the label, which is as long as the name; inverted iff the key is a dark icon; with the corrected own-entries lookup `IconSource`, the table URL iff the key is in the table, and the local path built from the key otherwise |
| SkillIcon.LabelKeepsCaseAndSpacing | components/Skills/SkillIcon.jsx:100-103 | the label is made from the name, not the key, so the name's capital letters and white space survive |
| SkillIcon.CiCdKey | components/Skills/SkillIcon.jsx:95-97 | the last listed skill, "ci/cd" (constants.js:92), is its own key |
| SkillIcon.CiCdFallsBack | components/Skills/SkillIcon.jsx:125 | the skill "ci/cd" falls back to "/skills/ci/cd.svg" |
| SkillIcon.CiCdNotInTable | components/Skills/SkillIcon.jsx:5-85 | "ci/cd" is not a key of the table |
| SkillIcon.CiCdPath | components/Skills/SkillIcon.jsx:125 | the fallback path of "ci/cd" is "/skills/ci/cd.svg" |
| RoleCard.Accent | components/Work/RoleCard.js:27 | the first gradient colour, or "#EB7431" when the gradient or its first colour is null or missing |
| RoleCard.SplitMeta | components/Work/RoleCard.js:48-52 | an empty meta gives two empty texts; otherwise the first and second pieces of the split, with "" when there is no second piece |
| RoleCard.MetaWithoutSep | components/Work/RoleCard.js:50-51 | a meta without the separator is all date and no location |
| RoleCard.MetaRoundTrip | components/Work/RoleCard.js:48-52 | `d + " • " + l` splits back into `d` and `l` |
| RoleCard.MetaIgnoresLater | components/Work/RoleCard.js:50-51 | pieces after the second are ignored |
| RoleCard.MetaAmbiguous | components/Work/RoleCard.js:50-51 | "Jan •" joined with "CA" comes back as "Jan" and "• CA", although the separator does not occur in "Jan •" |
| RoleCard.ToggleChip | components/Work/RoleCard.js:58-59 | clicking the selected chip clears the selection; clicking any other chip selects it |
| RoleCard.ToggleChipTwice | components/Work/RoleCard.js:58-59 | a second click on the same chip restores a selection of that chip, and otherwise clears the selection |
| RoleCard.ChipActive | components/Work/RoleCard.js:182 | a chip is drawn active only when it is the selection |
| RoleCard.AtMostOneChip | components/Work/RoleCard.js:182 | at most one chip is drawn active |
| RoleCard.Flip | components/Work/RoleCard.js:57 | the toggled flag is negated and the other flag is kept |
| RoleCard.FlipTwice | components/Work/RoleCard.js:57 | toggling the same flag twice restores the flags |
| RoleCard.RoleCard.constructor | components/Work/RoleCard.js:55-56 | no chip is selected and both flags are off |
| RoleCard.RoleCard.OnChipClick | components/Work/RoleCard.js:58-59 | applies the chip toggle to the selection |
| RoleCard.RoleCard.ToggleMeta | components/Work/RoleCard.js:57 | flips one meta flag |
| Header.RefsDistinct | constants.js:24-45 | the menu-link refs are distinct; a fact about the constant list, used by MiniLabelOfRef and MarkedLinks |
| Header.IsMini | components/Header/Header.js:14 | on the home section, or while hovered, the full menu shows |
| Header.ActiveItem | components/Header/Header.js:16-19 | a link is found iff the active id is a ref, and it is the link with that ref |
| Header.MiniLabel | components/Header/Header.js:102 | the mini pill shows the active link's name, or "—" when there is no such link |
| Header.MiniLabelOfRef | components/Header/Header.js:102 | every link's ref shows that link's own name |
| Header.Marked | components/Header/Header.js:105-111 | a marked link means the active id is a ref |
| Header.MarkedLinks | components/Header/Header.js:105-111 | exactly one link is marked when the active id is a ref, and none otherwise |
| Header.Observe | components/Header/Header.js:45-47 | when the old id and every entry's id are refs, so is the result |
| Header.ObserveNone | components/Header/Header.js:45-47 | with no intersecting entry the active id is unchanged |
| Header.ObserveLastWins | components/Header/Header.js:45-47 | the last intersecting entry decides the active id |
| Header.ObserveFrom | components/Header/Header.js:45-47 | the new active id is the old one or one of the entries' ids |
| Header.Header.constructor | components/Header/Header.js:10-11 | `active` starts as "home", not hovered |
| Header.Header.SetHovering | components/Header/Header.js:85-86 | records the hover flag |
| Header.Header.Mini | components/Header/Header.js:14 | the state is never mini on the home section or while hovered |
| Header.Header.OnNavClick | components/Header/Header.js:28-33 | the clicked section becomes active iff an element with that id exists; otherwise nothing changes |
| Header.Header.OnObserve | components/Header/Header.js:44-48 | the `forEach` loop leaves `active` equal to the left fold `Observe` over the entries |
| About2.NextIdx | components/About/About2.js:83 | the index stays within WORDS and advances by one, wrapping from the last word to the first |
| About2.StepsCycle | components/About/About2.js:83 | after four steps the word repeats, and not before |
| About2.DisplayChar | components/About/About2.js:94 | a space is shown as a no-break space; every other character as itself |
| About2.SpansFor | components/About/About2.js:92-100 | one span per letter, in order, whose data-char equals its text |
| About2.FrameChar | components/About/About2.js:140-148 | below progress 0.7 a letter shows a glitch glyph; from 0.7 on, its final letter |
| About2.WordCycler.constructor | components/About/About2.js:17-25 | the first word is built, no timer is set, and the index is 0 |
| About2.WordCycler.BuildSpans | components/About/About2.js:90-101 | the wrapper is emptied and ends up holding exactly SpansFor(word) |
| About2.WordCycler.LetterUpdate | components/About/About2.js:139-148 | one letter tween's update writes FrameChar into that span only |
| About2.WordCycler.MorphTo | components/About/About2.js:104-153 | rebuilds iff the span count differs from the target's length; at the end the spans are exactly SpansFor(target) |
| About2.WordCycler.Kill | components/About/About2.js:67-70 | the referenced call is no longer pending and the ref is null |
| About2.WordCycler.Schedule | components/About/About2.js:65 | a fresh call becomes pending and is held by the ref |
| About2.WordCycler.StartCycling | components/About/About2.js:63-66 | the referenced call is killed and a fresh one is scheduled and held; any other pending call stays pending; from a valid state the fresh call is the only one |
| About2.WordCycler.StopCycling | components/About/About2.js:67-70 | only the referenced call is killed and the ref is null; from a valid state nothing is pending |
| About2.WordCycler.Fire | components/About/About2.js:82-87 | a pending call fires in view or not: the index advances mod 4 and the spans morph into the new word |
| About2.WordCycler.MorphCompleteAsWritten | components/About/About2.js:82-87 | the morph's end schedules a new call unconditionally |
| About2.WordCycler.MorphComplete | components/About/About2.js:82-87 | the intended end of a morph: schedule only while in view, after cancelling the referenced call, so Valid() holds |
| About2.StopDuringMorphAsWritten | components/About/About2.js:63-87 | leaving the section during a morph leaves a call pending out of view; it fires, shows the next word and schedules another call, all out of view |
| About2.RestartDuringMorphAsWritten | components/About/About2.js:63-87 | re-entering during a morph leaves two calls pending with the ref on one; leaving again leaves the other pending out of view |
| About2.StopDuringMorph | components/About/About2.js:63-87 | with the intended callback, nothing is pending after leaving during a morph |
| About2.RestartDuringMorph | components/About/About2.js:63-87 | with the intended callback, exactly the referenced call is pending after re-entering |
| Loader.NextIdx | components/Loader/Loader.js:41 | the index stays a valid GREETINGS index, advancing by one and wrapping |
| Loader.ModSucc | components/Loader/Loader.js:41 | taking the remainder before or after the increment gives the same index |
| Loader.TicksClosedForm | components/Loader/Loader.js:41 | `n` ticks from `i` give `(i + n) mod 19` |
| Loader.GreetingsCycle | components/Loader/Loader.js:4-41 | after 19 ticks the same greeting is shown again, and not before |
| Loader.Letters | components/Loader/Loader.js:38 | the greeting's code points, or nothing for an index without a greeting |
| Loader.LettersNonEmpty | components/Loader/Loader.js:4-24 | every greeting row has at least two letters |
| Loader.Delay | components/Loader/Loader.js:67 | the delay of letter `i` is a multiple of 45 whose quotient is `i` |
| Loader.DelayText | components/Loader/Loader.js:67 | the delay text is the decimal number `i*45`, digits only with no leading zero, followed by "ms" |
| Loader.DelaysStagger | components/Loader/Loader.js:67 | later letters start later, each 45 ms after the one before |
| Loader.LetterKey | components/Loader/Loader.js:65 | the key starts with the greeting index and a dash, and ends with a dash and the letter |
| Loader.KeysDistinct | components/Loader/Loader.js:65 | two letters of one row have distinct keys, whatever their characters |
| Loader.Loader.constructor | components/Loader/Loader.js:37 | the index starts at 0 |
| Loader.Loader.Tick | components/Loader/Loader.js:41 | one tick applies NextIdx |
| Loader.Loader.CurrentLetters | components/Loader/Loader.js:38 | in a valid state the row is the current greeting |

## Left out

- Rendering is not modelled: markup, CSS, framer-motion and GSAP animation, easing, durations and the entrance tweens.
- The tilt maths of the role card and the preview card are left out; they are floating-point mouse geometry.
- Real audio playback is left out. Whether `play()` succeeds is the parameter `accepted`.
- The order in which the audio element's own `play` and `pause` events fire, relative to `setPlaying`, is left out; those events set the same values as the handlers.
- The first-visit hint is left out, because it depends on `sessionStorage` and two timers. The `hint` field is only initialised to false.
- SoundBar.SoundBar.OnPickTrack: the `play()` one animation frame later is not part of the method. It is a separate call of `Play`, because the delay is a scheduling detail.
- The window gesture listeners with `{ once: true }` are modelled by `Unlock`; listener registration and removal are not modelled.
- StickyScroll: breakpoints and the scroll progress are exact reals; float rounding is out of scope.
- `Math.random` choices are indices that the caller supplies: the glitch glyph in About2, and the tween duration and the Loader animation class, which are not modelled at all.
- About2: time is not modelled. A delayed call is an id that stays pending until it fires or is killed, and the end of a morph's timeline is its own event. Overlapping morphs are counted but not interleaved letter by letter.
- About2: the unmount cleanup and `gsap.context` revert are left out.
- About2: the scroll-reveal and glow tweens are left out.
- SkillIcon: `toLowerCase` is modelled on ASCII letters only. The keys in the table and in the skill list are ASCII.
- SkillIcon: a non-string `name` (a number, say) passed through `String(...)` and `.toString()` is not modelled. A name is a string or missing.
- SkillIcon.SkillIcon: uses the corrected own-entries lookup `IconSource`. The component as written also takes the CDN branch for "constructor" and "__proto__" (see Findings and `IconSourceAsWritten`).
- SkillIcon: framework image loading (`next/image`) is left out; only the `src` it is given is modelled.
- Header: `scrollIntoView`, `history.replaceState`, `blur` and the observer's thresholds are left out. The document is the set of its element ids, and the observer delivers entries.
- Header.Header.OnNavClick and Header.Header.OnObserve require that the ids they receive are menu-link refs. Every caller in the component passes such an id.
- Tabs.Tabs.constructor requires a non-empty tab list, because the component reads `tabs[0].value` when it renders.
- Tabs: the `onChange` prop is ignored by the component and is not modelled.
- Tabs.StackStyleOrder: states the style the component computes. The entrance animation of framer-motion that then drives opacity is not modelled.
- RoleCard.MetaRoundTrip: besides `l`, the hypothesis also excludes the separator from `d + " •"`. "Without ` • ` in either part" is not enough, as RoleCard.MetaAmbiguous shows.
- The doc comment of `Description` says the first line is skipped, but the code does not skip it. The model follows the code: StickyScroll.Description keeps every line, and the caller drops the first one (StickyScroll.EntryBullets).
- The site's other components are not part of this model: the particle canvas, the progress indicator, the hero and the first About section (library-driven), the footer, the menu, the dot pattern and the static work table.

## Findings

| source | as written | input that shows it | evidently intended | confidence | as-written member | corrected member |
|---|---|---|---|---|---|---|
| components/About/About2.js:84-86 | when a morph ends, `onDone` always schedules the next word. Neither `stopCycling` nor `startCycling` can cancel a morph that is already running | leave the section (or leave and re-enter) while a morph is running: a delayed call stays pending out of view, or two calls are pending and the ref holds only one of them | schedule the next word only while the section is in view, and cancel the referenced call first, so at most one call is pending and none out of view | not executed | About2.WordCycler.MorphCompleteAsWritten, About2.StopDuringMorphAsWritten, About2.RestartDuringMorphAsWritten | About2.WordCycler.MorphComplete, About2.StopDuringMorph, About2.RestartDuringMorph |
| components/Skills/SkillIcon.jsx:98-130 | `EXTERNAL_SKILL_SVGS[key]` on a plain object also finds members inherited from Object.prototype. The truthiness test then takes the CDN branch | a skill named "constructor" or "__proto__" takes the CDN branch with an inherited member as `src` (the `Object` function or `Object.prototype`), so no usable image URL is set, instead of "/skills/<key>.svg" | look up only the table's own entries and fall back to the local image for every other key | not executed | SkillIcon.IconSourceAsWritten, SkillIcon.ConstructorKeyAsWritten | SkillIcon.IconSource, SkillIcon.AsWrittenAgreesElsewhere |
