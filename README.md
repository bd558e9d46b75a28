# Onboarding wizard of the kitabuX learning app

This project models the decision logic of the app's onboarding wizard and proves properties of it. The wizard is a chain of React Native screens:

1. grade;
2. subjects;
3. skill level per subject;
4. ranking of three focus areas;
5. interest topics per subject;
6. struggle topics per subject;
7. daily time;
8. plan preview;
9. account creation.

The last step writes the user's data to device storage. A root layout reads a stored flag once, when it mounts. Its redirect rule then runs again on every route change, always with that status: it sends an incomplete user outside the onboarding flow into it, and a complete user inside the flow to the main tabs.

Each screen has its own module:

- Pure logic, such as catalogs, toggles, lookups and parameter defaults, is written as functions and lemmas.
- Screen state that handlers step over time is a `class`. Its methods have `modifies` clauses and are specified against those functions.

Shared pieces live in their own modules:

- `Wizard` holds route parameters, navigation actions, list filtering and topic totals.
- `SubjectPager` holds the next/back index rule.
- `TopicPicker` holds the topic table and the capped per-subject toggle.
- `KeyValue` holds storage as a string map.

Route parameters are already-decoded values: `Missing` (absent or empty text), `Malformed` (does not parse) or `Given(v)`. Navigation is an emitted action: `Stay`, `Back`, `Push(screen, params)` or `Replace(route)`. A `setTimeout` whose callback changes screen state is an explicit pending step with a `Fire` method. The grade screen's delayed push is instead the `scheduled` action of the tap's result, and the focus-area screen's 200 ms scale reset belongs to the animations, which are not modelled. There is no wall-clock time.

The subject screen forwards one record per pick, each possibly missing (`Option<Subject>`), while the skill-level screen takes a list of subjects; `SubjectSelection.Delivered` maps the one onto the other.

The interests screen forwards only the subjects and the topic map. The struggles screen takes the priorities from a `useLocalSearchParams()` call inside its Next handler, and would fill the missing priorities with `[]` if that call returned the screen's parameters. So in that reading the ranking made on the focus-area screen never reaches the plan preview, which shows an empty priority list (`Struggles.PrioritiesArriveEmpty`).

The layout never reads the flag again. So in a session that started without the flag, creating the account or skipping stores the flag and replaces the route with the tabs. The redirect then runs on the "(tabs)" segment with the status from the mount, which is still "incomplete", and it sends the user back to "/onboarding". A fresh read of the store would have left them in the tabs. This lasts until the next start, which reads the stored flag (`AccountCreation.FinishingInSessionReturnsToOnboarding`, `AccountCreation.FinishingMarksOnboardingComplete`).

## Model

| member | source | states |
|---|---|---|
| Wizard.OrDefault | app/onboarding/time-commitment.tsx:27-30 | the `or` default of a raw parameter: an absent parameter becomes the default, and a present one (even malformed) is passed on unchanged |
| Wizard.StringOr | app/onboarding/study-plan-preview.tsx:51 | the `or` fallback of an optional text: a non-empty value is kept, and an absent or empty one becomes the fallback |
| Wizard.Ids | app/onboarding/subject-selection.tsx:106 | the ids of a subject list, position by position |
| Wizard.IndexOf | app/onboarding/focus-area.tsx:119 | `indexOf`: the first position holding the value, and None exactly when the value does not occur |
| Wizard.Without | app/onboarding/subject-selection.tsx:51 | `filter(y => y !== x)`: x is gone, every other element's membership is kept, and the list shrinks when x was present |
| Wizard.WithoutAt | app/onboarding/subject-selection.tsx:51 | in a duplicate-free list, filtering out the element at k closes the gap at k and keeps the others in order |
| Wizard.WithoutNoDuplicates | app/onboarding/interests.tsx:199 | filtering keeps a list duplicate-free |
| Wizard.TotalTopicsSplit | app/onboarding/struggles.tsx:238 | the total of `Object.values(m).flat().length` splits into one key's list length plus the total of the rest |
| Wizard.TotalTopicsUpdate | app/onboarding/struggles.tsx:238 | replacing one key's list changes the total by the difference of the two lengths |
| Wizard.TotalTopicsCountsEveryKey | app/onboarding/study-plan-preview.tsx:247 | every key's list counts towards the total, whether or not it is a listed subject |
| Wizard.TotalTopicsBound | app/onboarding/struggles.tsx:238 | with every list capped at `cap`, the total is at most `cap` times the number of keys |
| Wizard.TotalTopics | app/onboarding/study-plan-preview.tsx:247 | `Object.values(m).flat().length`, defined by taking out any one key; `TotalTopicsSplit` shows the choice of key does not matter and `CountTopics` computes it |
| Wizard.CountTopics | app/onboarding/struggles.tsx:238 | the loop over the keys returns exactly the total of the list lengths |
| SubjectPager.NextMove | app/onboarding/interests.tsx:210-223 | Next moves to index+1 exactly when the index is before the last subject, and otherwise leaves the screen |
| SubjectPager.BackMove | app/onboarding/interests.tsx:225-231 | Back moves to index-1 exactly when the index is above 0, and otherwise leaves |
| SubjectPager.PressesToFinishIsRemainder | app/onboarding/skill-level.tsx:101-113 | from index i of n, exactly n-i presses on Next leave the screen |
| TopicPicker.TopicsFor | app/onboarding/interests.tsx:189 | a subject's topic cards, or none when the table has no entry for it |
| TopicPicker.Chosen | app/onboarding/interests.tsx:190 | the current subject's list, or `[]` when the map has no entry |
| TopicPicker.ToggleTopic | app/onboarding/interests.tsx:192-208 | a chosen topic is removed from that subject's list, an unchosen one is appended below 3, and at 3 nothing changes; other subjects' entries are untouched |
| TopicPicker.ToggleKeepsWellFormed | app/onboarding/interests.tsx:192-208 | every list stays at most 3 long and duplicate-free |
| TopicPicker.ToggleKeepsVocabulary | app/onboarding/interests.tsx:276-289 | toggling a shown card keeps every chosen topic among its subject's cards |
| TopicPicker.ToggleTwiceRestores | app/onboarding/interests.tsx:195-207 | adding an absent topic with room and toggling it again restores the list |
| TopicPicker.ToggleChangesTotalByOne | app/onboarding/struggles.tsx:196-212 | a toggle lowers the total by one (removal), raises it by one (append) or leaves it (full) |
| Wizard.WithoutAppended | app/onboarding/subject-selection.tsx:51-53 | filtering out an id just appended to a list without it gives the list back |
| TopicPicker.WithoutOnce | app/onboarding/struggles.tsx:203 | removing a present topic from a duplicate-free list shortens it by exactly one |
| GradeSelection.AvailableSubjects | app/onboarding/grade-selection.tsx:97 | the catalog of a listed grade, and `[]` for any other id |
| GradeSelection.HandleGradeSelect | app/onboarding/grade-selection.tsx:93-107 | records the grade and schedules a push to subject selection carrying that grade id and its catalog |
| GradeSelection.OfferedGradesHaveCatalogs | app/onboarding/grade-selection.tsx:9-16 | every offered grade has a catalog, and every catalog belongs to an offered grade |
| GradeSelection.OfferedGradeForwardsItsCatalog | app/onboarding/grade-selection.tsx:19-87 | an offered grade forwards its own catalog (never the `[]` fallback), of at least 8 subjects |
| GradeSelection.UnknownGradeHasNoSubjects | app/onboarding/grade-selection.tsx:97 | an id that no grade offers looks up `[]` |
| GradeSelection.CatalogsDifferByGrade | app/onboarding/grade-selection.tsx:20-86 | grades 4 and 5 have neither agriculture nor pre-tech, grade 6 has agriculture only, and grades 7 to 9 have both |
| GradeSelection.CatalogIdsAreUnique | app/onboarding/grade-selection.tsx:20-86 | no id occurs twice in a catalog |
| GradeSelection.CatalogIsOneOfThree | app/onboarding/grade-selection.tsx:20-86 | every catalog is one of the three lists (grades 4-5, grade 6, grades 7-9) |
| GradeSelection.PrimaryIdsAre | app/onboarding/grade-selection.tsx:20-39 | the ids of the grade 4 and 5 catalog, in order |
| GradeSelection.Grade6IdsAre | app/onboarding/grade-selection.tsx:40-86 | the ids of the grade 6 catalog, and the grade 7-9 catalog is that list plus pre-tech |
| GradeSelection.EveryCatalogSubjectHasTopics | app/onboarding/interests.tsx:24-145 | every subject of every catalog has ten topic cards on the interests and struggles screens |
| SubjectSelection.Toggle | app/onboarding/subject-selection.tsx:48-57 | a selected id is filtered out, an unselected one is appended while fewer than 5 are selected, and at 5 nothing changes |
| SubjectSelection.ToggleRemovesInPlace | app/onboarding/subject-selection.tsx:50-51 | removal closes the gap and keeps the others' order |
| SubjectSelection.IsDisabled | app/onboarding/subject-selection.tsx:107 | a card is disabled when it is unpicked and five are picked; `DisabledToggleIsNoOp` shows that is exactly when a tap leaves the selection as it is |
| SubjectSelection.DisabledToggleIsNoOp | app/onboarding/subject-selection.tsx:48-57 | a card is disabled (unselected, 5 selected) exactly when a tap on it changes nothing |
| SubjectSelection.ToggleKeepsValid | app/onboarding/subject-selection.tsx:48-57 | the selection stays at most 5 long and duplicate-free |
| SubjectSelection.Replay | app/onboarding/subject-selection.tsx:34 | any sequence of taps from the empty selection gives a valid selection |
| SubjectSelection.ToggleTwiceRestores | app/onboarding/subject-selection.tsx:50-53 | adding an absent id with room and toggling it again restores the selection |
| SubjectSelection.Find | app/onboarding/subject-selection.tsx:63 | `subjects.find(s => s.id === id)`: a catalog record with that id, and None exactly when no record has it |
| SubjectSelection.FindIsFirst | app/onboarding/subject-selection.tsx:63 | the record found is the first with that id |
| SubjectSelection.Records | app/onboarding/subject-selection.tsx:62-70 | one looked-up record per selected id, in selection order |
| SubjectSelection.ContinueDisabled | app/onboarding/subject-selection.tsx:142 | the button is disabled with nothing picked; `HandleContinue` stays exactly when it is |
| SubjectSelection.HandleContinue | app/onboarding/subject-selection.tsx:59-80 | the action is `Stay` exactly when the button is disabled; otherwise a push to skill level with the grade and one record per selected id, in order |
| SubjectSelection.ContinueForwardsCatalogRecords | app/onboarding/subject-selection.tsx:60-76 | when every id comes from the catalog, each forwarded record is that id's catalog entry |
| SubjectSelection.Screen.Mount | app/onboarding/subject-selection.tsx:36-46 | a given catalog is shown, a malformed one goes back, and an absent one leaves the list empty without navigating |
| SubjectSelection.Screen.Tap | app/onboarding/subject-selection.tsx:48-57 | the selection becomes its toggle, and the screen stays valid |
| SubjectSelection.Delivered | app/onboarding/skill-level.tsx:72-74 | the forwarded records as subjects: a list exactly when every record has its fields, and then the same subjects position by position |
| SubjectSelection.ContinueDeliversSubjects | app/onboarding/subject-selection.tsx:59-80 | a selection of catalog ids reaches the skill-level screen as a list of catalog subjects whose ids are the picks, in order |
| SubjectSelection.Screen.Continue | app/onboarding/subject-selection.tsx:140-142 | the continue action for the current state; every record it forwards is a catalog record |
| SkillLevel.GradeTitle | app/onboarding/skill-level.tsx:23-54 | every band's title is its code, a dash, and a description |
| SkillLevel.ContinueShownIffAllGraded | app/onboarding/skill-level.tsx:211 | with distinct ids, "graded ids = number of subjects" holds exactly when every subject is graded |
| SkillLevel.DistinctIdsCardinality | app/onboarding/skill-level.tsx:211 | distinct ids make a set as large as the subject list |
| SkillLevel.Screen.Mount | app/onboarding/skill-level.tsx:70-81 | a given list is shown, a malformed one goes back, and an absent one navigates nowhere |
| SkillLevel.Screen.SelectGrade | app/onboarding/skill-level.tsx:96-115 | writes only the current subject's answer (overwriting any earlier one) and schedules the index advance, or on the last subject the forward of the map including this pick |
| SkillLevel.Screen.Fire | app/onboarding/skill-level.tsx:102-113 | the timer either sets the index or pushes to the focus-area screen with the subjects and the scheduled map |
| SkillLevel.Screen.HandleBack | app/onboarding/skill-level.tsx:117-123 | the index goes down by one above 0, and 0 goes back; answers are untouched |
| SkillLevel.Screen.ContinueShown | app/onboarding/skill-level.tsx:211 | the button shows when the answer keys are as many as the subjects; `ContinueShownIffAllGraded` shows that, with distinct ids, this means every subject is answered |
| SkillLevel.Screen.Continue | app/onboarding/skill-level.tsx:125-132 | pushes the subjects and the answers; with distinct ids, every subject has an answer |
| FocusArea.Select | app/onboarding/focus-area.tsx:86-89 | a ranked area is left alone; any other is appended at the end |
| FocusArea.SelectKeepsValid | app/onboarding/focus-area.tsx:16-41 | the ranking stays duplicate-free, at most 3 long and within the catalog ids |
| FocusArea.FindArea | app/onboarding/focus-area.tsx:80 | the catalog card with an id, and None exactly for ids outside the catalog |
| FocusArea.FirstUnranked | app/onboarding/focus-area.tsx:68 | `find(area => !ranked)`: an unranked card, and None exactly when every card is ranked |
| FocusArea.FirstUnrankedIsFirst | app/onboarding/focus-area.tsx:68 | the card found is the first unranked one: every card before it is ranked |
| FocusArea.FirstUnrankedHeadsUnranked | app/onboarding/focus-area.tsx:68-81 | `find` returns the first card `filter` keeps, and None when it keeps none |
| FocusArea.OnlyOneLeft | app/onboarding/focus-area.tsx:64-69 | with two ranked, exactly one id is unranked |
| FocusArea.TwoRankedCompleteToAll | app/onboarding/focus-area.tsx:63-76 | two manual picks followed by the auto-selected card form a valid ranking of all three ids |
| FocusArea.FullRankingIsPermutation | app/onboarding/focus-area.tsx:16-41 | a valid ranking of length 3 is a permutation of the catalog ids |
| FocusArea.Ranked | app/onboarding/focus-area.tsx:80 | the ranked cards, in rank order |
| FocusArea.Unranked | app/onboarding/focus-area.tsx:81 | exactly the cards that are not ranked |
| FocusArea.UnrankedInOrder | app/onboarding/focus-area.tsx:81 | in a list without repeats, the kept cards appear in the list's own order |
| FocusArea.UnrankedNoDuplicates | app/onboarding/focus-area.tsx:81 | filtering the catalog keeps it duplicate-free |
| FocusArea.FocusAreasDistinct | app/onboarding/focus-area.tsx:16-41 | the catalog's cards and ids are distinct |
| FocusArea.DisplayOrder | app/onboarding/focus-area.tsx:79-83 | the ranked cards first, in rank order, followed by exactly the catalog cards that are not ranked |
| FocusArea.DisplayOrderLayout | app/onboarding/focus-area.tsx:79-83 | ranked ids first in rank order, then only unranked cards, in catalog order |
| FocusArea.DisplayOrderDistinct | app/onboarding/focus-area.tsx:79-83 | no card is shown twice |
| FocusArea.DisplayOrderCoversCatalog | app/onboarding/focus-area.tsx:79-83 | every card is shown |
| FocusArea.DisplayOrderWithinCatalog | app/onboarding/focus-area.tsx:79-83 | only catalog cards are shown |
| FocusArea.DisplayOrderIsPermutation | app/onboarding/focus-area.tsx:79-83 | three cards, ranked prefix and unranked suffix, with the same multiset as the catalog |
| FocusArea.PriorityNumber | app/onboarding/focus-area.tsx:118-121 | the rank position plus one, and None exactly for unranked ids |
| FocusArea.PriorityNumberOfRank | app/onboarding/focus-area.tsx:118-121 | the card at rank k shows the badge k+1 |
| FocusArea.IsDisabled | app/onboarding/focus-area.tsx:211-212 | an unranked card is greyed out at two ranked without an auto-select running, and at three; `NothingPressableWhenComplete` uses it |
| FocusArea.Pressable | app/onboarding/focus-area.tsx:223 | a card that accepts a tap gets ranked last by it, never with three ranked, and at two ranked only while the auto-select runs |
| FocusArea.NothingPressableWhenComplete | app/onboarding/focus-area.tsx:211-212 | with three ranked, no card accepts a tap |
| FocusArea.ContinueEnabled | app/onboarding/focus-area.tsx:276 | the Continue button is enabled exactly when three areas are ranked |
| FocusArea.Screen.Tap | app/onboarding/focus-area.tsx:85-106 | appends the area; at two ranked the effect sets the guard and schedules the remaining card; at three a flag reset is scheduled |
| FocusArea.Screen.FireAuto | app/onboarding/focus-area.tsx:71-74 | the auto-select appends the remembered card to the remembered ranking, after which every id is ranked |
| FocusArea.Screen.FireReset | app/onboarding/focus-area.tsx:102-104 | the guard flag is cleared |
| FocusArea.Screen.Continue | app/onboarding/focus-area.tsx:108-116 | pushes to interests with the subjects and grades passed through and the ranking in rank order, which is a permutation of the three ids |
| FocusArea.ExamThenMastery | app/onboarding/focus-area.tsx:63-106 | tapping exam then mastery and firing the timers ranks exam, mastery, assignments |
| Interests.ForwardToStruggles | app/onboarding/interests.tsx:215-221 | pushes the subject list and topic map, and no priorities |
| Interests.Screen.Mount | app/onboarding/interests.tsx:161-175 | a given subject list is shown; a missing or malformed one goes back |
| Interests.Screen.CurrentTopics | app/onboarding/interests.tsx:189 | the current subject's cards, empty for a subject without a table entry |
| Interests.Screen.Toggle | app/onboarding/interests.tsx:192-208 | the map becomes its toggle on the current subject, and other subjects are unchanged |
| Interests.Screen.CanProceed | app/onboarding/interests.tsx:233 | the current subject has a topic; `HandleNext` is reachable only then |
| Interests.Screen.HandleNext | app/onboarding/interests.tsx:210-223 | advances before the last subject, and forwards on the last |
| Interests.Screen.HandleBack | app/onboarding/interests.tsx:225-231 | steps back, or leaves at 0, keeping the topics |
| Struggles.ForwardToTime | app/onboarding/struggles.tsx:219-225 | subjects and topics passed through, struggles as the struggling topics, priorities defaulted to `[]` |
| Struggles.PrioritiesArriveEmpty | app/onboarding/interests.tsx:215-221 | arriving from the interests screen, the time screen always receives the empty priority list |
| Struggles.Screen.Mount | app/onboarding/struggles.tsx:162-179 | both parameters must be given; otherwise the screen goes back; struggles start empty |
| Struggles.Screen.Toggle | app/onboarding/struggles.tsx:196-212 | the struggles map becomes its toggle on the current subject, and other subjects are unchanged |
| Struggles.Screen.CanProceed | app/onboarding/struggles.tsx:237 | the current subject has a struggle; `HandleNext` is reachable only then |
| Struggles.Screen.HandleNext | app/onboarding/struggles.tsx:214-227 | advances before the last subject, and forwards on the last |
| Struggles.Screen.HandleBack | app/onboarding/struggles.tsx:229-235 | steps back, or leaves at 0, keeping the struggles |
| Struggles.Screen.TotalStruggles | app/onboarding/struggles.tsx:238 | the sum of list lengths over every key, at most three per key |
| TimeCommitment.TimeIdsAreTheOptions | app/onboarding/time-commitment.tsx:9-14 | the ids of the option cards, in display order, are "5", "15", "30" and "60" |
| TimeCommitment.Forward | app/onboarding/time-commitment.tsx:26-32 | absent subjects and priorities become `[]`, and absent topic maps `{}`; present ones pass unchanged; the time is the chosen id |
| TimeCommitment.ForwardKeepsPresentParams | app/onboarding/time-commitment.tsx:26-32 | with every parameter present, only the time is added |
| TimeCommitment.Screen.Select | app/onboarding/time-commitment.tsx:21-24 | records the choice and schedules the forward |
| TimeCommitment.Screen.Fire | app/onboarding/time-commitment.tsx:24-35 | pushes to the preview with the forwarded parameters and an offered time id |
| StudyPlanPreview.ValueOr | app/onboarding/study-plan-preview.tsx:47-50 | the decoded value, or the default when absent |
| StudyPlanPreview.ParsePlan | app/onboarding/study-plan-preview.tsx:44-64 | no plan exactly when some parameter does not parse; otherwise defaults `[]`, `{}` and "15" |
| StudyPlanPreview.ForwardedParamsParseAlike | app/onboarding/time-commitment.tsx:26-32 | the defaults filled in by the time screen are those the preview applies itself |
| StudyPlanPreview.PriorityTitle | app/onboarding/study-plan-preview.tsx:95-102 | the title of a priority; `PriorityTitleMatchesCatalog` ties it to the focus-area cards |
| StudyPlanPreview.PriorityTitleMatchesCatalog | app/onboarding/study-plan-preview.tsx:95-102 | each focus area is titled as its card, and anything else "Focus Area" |
| StudyPlanPreview.TimeDescription | app/onboarding/study-plan-preview.tsx:104-112 | the description of a daily time; `UnknownTimeIsGeneric` and `TimeDescriptionsDistinguishOptions` state what it gives |
| StudyPlanPreview.UnknownTimeIsGeneric | app/onboarding/study-plan-preview.tsx:104-112 | a time that is not an option is described as "Personalized sessions" |
| StudyPlanPreview.TimeDescriptionsDistinguishOptions | app/onboarding/study-plan-preview.tsx:104-112 | the four options have four different, specific descriptions |
| StudyPlanPreview.GroupFor | app/onboarding/study-plan-preview.tsx:185-201 | hidden exactly for n = 0; shows the first min(2, n) topics, with "+N more" exactly when n > 2 |
| StudyPlanPreview.GroupAccountsForEveryTopic | app/onboarding/study-plan-preview.tsx:199-201 | shown topics plus the "+N more" count equal n, and the shown ones are the first picks |
| StudyPlanPreview.SubjectGroup | app/onboarding/study-plan-preview.tsx:166-167 | a subject with no map entry is hidden |
| StudyPlanPreview.RowsFrom | app/onboarding/study-plan-preview.tsx:144-157 | numbered rows with their titles, counted from a start |
| StudyPlanPreview.PriorityRows | app/onboarding/study-plan-preview.tsx:144-157 | priorities in the given order, numbered from 1, with their titles |
| StudyPlanPreview.RowNumbersMatchBadges | app/onboarding/study-plan-preview.tsx:144-149 | the preview number of a ranked priority is the badge its card showed |
| StudyPlanPreview.Screen.Mount | app/onboarding/study-plan-preview.tsx:44-74 | the plan is the parse result; while the loading view shows (a failure) it goes back |
| StudyPlanPreview.Screen.ShowsLoading | app/onboarding/study-plan-preview.tsx:67-72 | the loading view is shown exactly while no plan is set |
| StudyPlanPreview.Screen.Summary | app/onboarding/study-plan-preview.tsx:242-254 | subject count, and interest and focus totals over every key of the two maps |
| StudyPlanPreview.Screen.SavePlan | app/onboarding/study-plan-preview.tsx:76-79 | saving starts and the timer is pending |
| StudyPlanPreview.Screen.FireSave | app/onboarding/study-plan-preview.tsx:80-83 | saving ends and the report opens |
| KeyValue.Lookup | utils/storage.ts:11-16 | the stored value, or None when the key is not set |
| KeyValue.Read | app/_layout.tsx:28-32 | `getItem` of one key: a failure exactly when the storage layer fails, otherwise the value stored under that key |
| KeyValue.Store.SetItem | utils/storage.ts:17-21 | the key holds the value, and other keys are unchanged |
| KeyValue.Store.RemoveItem | utils/storage.ts:22-26 | the key is unset, and other keys are unchanged |
| RootLayout.StatusFromRead | app/_layout.tsx:25-37 | complete exactly when the read returns "true"; a failed read counts as incomplete |
| RootLayout.Redirect | app/_layout.tsx:45-55 | nothing while the status is unknown or fonts are not loaded; "/onboarding" exactly for incomplete outside onboarding; "/(tabs)" exactly for complete inside it |
| RootLayout.RedirectIsIdempotent | app/_layout.tsx:48-54 | at the route it sent to, the rule asks for nothing more |
| RootLayout.FontErrorRendersWithoutRedirect | app/_layout.tsx:39-59 | after a font error the layout renders but never redirects |
| RootLayout.Renders | app/_layout.tsx:57-59 | the layout renders its tree once fonts are loaded or have failed, and nothing before |
| RootLayout.Layout.CheckStatus | app/_layout.tsx:25-37 | the status becomes the read of `onboarding_complete` from the store: complete exactly when the read succeeds and the stored value is "true" |
| RootLayout.Layout.Navigate | app/_layout.tsx:45-55 | each rerun of the redirect uses the status held since mount: nothing while it is unknown or fonts are not loaded, "/onboarding" exactly for incomplete outside onboarding, "/(tabs)" exactly for complete inside it |
| AccountCreation.TrimStart | app/onboarding/account-creation.tsx:46 | a suffix of the text, with only white space removed and no leading white space left |
| AccountCreation.IsJsWhitespace | app/onboarding/account-creation.tsx:37-51 | the characters that `trim` removes and the regex `\s` matches: ECMAScript white space and line terminators |
| AccountCreation.TrimEnd | app/onboarding/account-creation.tsx:46 | a prefix of the text, with only white space removed and no trailing white space left |
| AccountCreation.Trim | app/onboarding/account-creation.tsx:46-51 | a slice of the text with only white space cut from either end; empty exactly for blank text; otherwise without outer white space; unchanged when there is none |
| AccountCreation.ValidateEmail | app/onboarding/account-creation.tsx:36-39 | the format check, written as a split at the first "@"; `ValidateEmailMatchesPattern` proves it equals the regular expression |
| AccountCreation.ValidateEmailMatchesPattern | app/onboarding/account-creation.tsx:36-39 | the format check agrees with `^[^\s@]+@[^\s@]+\.[^\s@]+$` on every text |
| AccountCreation.ValidEmailMatches | app/onboarding/account-creation.tsx:37 | a valid email splits as the pattern says |
| AccountCreation.MatchingEmailValid | app/onboarding/account-creation.tsx:37 | a text that splits as the pattern says is valid |
| AccountCreation.ValidEmailShape | app/onboarding/account-creation.tsx:37 | a valid email has no white space and exactly one "@", not at its start |
| AccountCreation.SurroundingSpaceFailsEmail | app/onboarding/account-creation.tsx:56 | a leading or trailing space fails the format check on the untrimmed email |
| AccountCreation.Utf16Length | app/onboarding/account-creation.tsx:42 | `length` in code units: between one and two per character |
| AccountCreation.ValidatePassword | app/onboarding/account-creation.tsx:41-43 | at least eight UTF-16 code units; `PasswordLengthBounds` relates that to the character count |
| AccountCreation.PasswordLengthBounds | app/onboarding/account-creation.tsx:41-43 | 8 characters always pass; in the basic plane, passing means at least 8 characters |
| AccountCreation.BasicPlaneLength | app/onboarding/account-creation.tsx:42 | in the basic plane, `length` is the character count |
| AccountCreation.Validate | app/onboarding/account-creation.tsx:45-74 | each alert fires exactly when the earlier checks pass and its own fails, in the source order |
| AccountCreation.IsFormValid | app/onboarding/account-creation.tsx:120-121 | the button's enabling condition; `FormValidIffNoError` shows it holds exactly when `Validate` finds no error |
| AccountCreation.FormValidIffNoError | app/onboarding/account-creation.tsx:120-121 | the button is enabled exactly when the create checks all pass |
| AccountCreation.StorageKeysDiffer | app/onboarding/account-creation.tsx:80-87 | the six storage keys are distinct |
| AccountCreation.CreatedEntries | app/onboarding/account-creation.tsx:80-87 | the storage after a create; `CreateWritesKeys` and `CreateKeepsOtherKeys` state every key of it |
| AccountCreation.CreateWritesKeys | app/onboarding/account-creation.tsx:80-87 | create sets trimmed name and email, the password, both flags, and removes the temporary name |
| AccountCreation.CreateKeepsOtherKeys | app/onboarding/account-creation.tsx:80-87 | create leaves every other key unchanged |
| AccountCreation.SkippedEntries | app/onboarding/account-creation.tsx:107-109 | the storage after a skip; `SkipWritesKeys` and `SkipKeepsOtherKeys` state every key of it |
| AccountCreation.SkipWritesKeys | app/onboarding/account-creation.tsx:107-109 | skip sets the trimmed name (even empty) and the completion flag, and removes the temporary name |
| AccountCreation.SkipKeepsOtherKeys | app/onboarding/account-creation.tsx:104-110 | skip leaves every other key, the email, password and account flag among them |
| AccountCreation.FinishingMarksOnboardingComplete | app/_layout.tsx:25-55 | after create or skip, the flag read at the next start gives "complete", and the redirect of that status on the onboarding segment is the replace to "/(tabs)" |
| AccountCreation.FinishingInSessionReturnsToOnboarding | app/_layout.tsx:25-55 | in a session that started without the flag, the status read at mount still sends the "(tabs)" segment reached by create or skip back to "/onboarding", while the stored flag would let it stay |
| AccountCreation.Screen.Prefill | app/onboarding/account-creation.tsx:21-34 | the name becomes the stored `temp_user_name` exactly when the read succeeds and that value is set and non-empty; otherwise the name is unchanged |
| AccountCreation.Screen.Edit | app/onboarding/account-creation.tsx:159-221 | the fields take the typed values |
| AccountCreation.Screen.CreateAccount | app/onboarding/account-creation.tsx:45-102 | a failed check raises its alert and writes nothing; success stores the account and replaces the route with the tabs |
| AccountCreation.Screen.Skip | app/onboarding/account-creation.tsx:104-118 | stores the name and flag, and replaces the route with the tabs |

## Left out

- Styles, layout, colours, icons, progress-bar widths and the Reanimated card animations: these affect presentation only.
- Question and subtitle texts and the "N/5 selected" counters: these are display strings.
- Real timer durations, and the order in which two timers pending at once fire: each timeout is a separate `Fire` step that the caller invokes.
- `JSON.parse`/`JSON.stringify` and `URLSearchParams`: parameters are decoded values. An absent raw parameter forwarded with `as string` would become the text "undefined"; the model forwards it as `Missing`.
- AsyncStorage's asynchrony, the fallback when no window exists, and write errors: storage is a map from keys to string values. A read can fail (`ReadFailed`), but a write cannot.
- The failure alert after a storage error in create, and the error logged by skip: these are not modelled because writes do not fail.
- The `isLoading` state between the writes of create: the writes are modelled as one atomic step.
- expo-router: navigation is an emitted action.
- Fonts and the splash screen: `fontsLoaded` and `fontError` are inputs.
- The static screens (welcome, name input, study-plan loading, report, onboarding route list) and the tab screens.
- Raw parameter texts that the focus-area and struggles screens forward unchanged: the model passes on the decoded `Param` value instead, so a text and its decoding count as the same thing.
- Struggles.Screen.HandleNext: `useLocalSearchParams` is a hook, and calling it inside the Next handler breaks React's rule that hooks run only during render. In the source that call fails outside render, so on the last subject the forward to the time-commitment screen is never made. The model takes the intended reading: the call returns the screen's parameters (also for `Struggles.ForwardToTime`).
- AccountCreation.Utf16Length: a character above U+FFFF counts as two code units. No surrogate halves are modelled, because Dafny's `char` is a Unicode scalar value.
- The password visibility toggles: these affect presentation only.
- Lookups in object literals under keys that name `Object.prototype` members, such as "__proto__", "constructor" or "toString": `gradeSubjects[id] || []` and the topic tables' `subjectTopics[id] || []` are modelled as map lookups, where such a key is simply absent. The screens pass only ids from their own catalogs.
- A field-less record (the `{}` of a failed subject lookup) on the skill-level screen: its model takes only complete subjects, so `SubjectSelection.Delivered` gives no list for a list holding one. `SubjectSelection.ContinueDeliversSubjects` shows the subject screen never forwards one.
