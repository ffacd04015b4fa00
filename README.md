# Course-updates feed

A model of the selection logic behind the course-updates page of a student
web application. The page holds a list of announcement records (title,
content, professor, course, course code, timestamp, type tag, a pinned flag,
optional attachments) and three filter inputs: a free-text search term, a
selected course and a selected type, where the value `"all"` switches a
selector off. From these it derives:

- the filtered list: records whose lower-cased title, content or professor
  contains the lower-cased search term, whose course equals the selected
  course (or the course selector is `"all"`), and whose type tag equals the
  selected type (or the type selector is `"all"`), in input order;
- the pinned and the regular updates, the filtered list split by the pinned
  flag, each in input order;
- the course selector's options, each course once in order of first
  appearance (`Array.from(new Set(...))`);
- per type tag, an icon and a colour, with a default for unknown tags, and a
  label that capitalises the tag's first letter;
- whether the "Pinned Updates" section and the "No updates found" block are
  shown.

The project has four modules:

- `Text` (text.dfy): ASCII lower- and upper-casing, substring containment
  (`includes`), and the label capitalisation.
- `Sequences` (sequences.dfy): `Keep`, the order-preserving filter, with its
  characterisation as the unique maximal subsequence of matching elements,
  and `Distinct`, first-occurrence de-duplication.
- `CourseFeed` (course_feed.dfy): the record and type datatypes, the three
  filter checks, the filtered, pinned and regular lists, the course list, the
  icon/colour/label lookups, and the lemmas about them.
- `MockFeed` (mock_feed.dfy): the five demonstration records the page ships
  with, and what the feed gives on them.

The record field `type` is called `kind` here, because `type` is a Dafny
keyword. The selectors are plain string parameters, as in the page, so a
selector value that is neither `"all"` nor a known tag is possible and is
modelled (it shows nothing).

The search box's placeholder text says it searches "updates, professors, or
courses", but the filter code compares the term only with title, content
and professor; the model follows the code, and `SearchIgnoresOtherFields`
states that course and course code play no part in the search.

## Model

| member | source | states |
|---|---|---|
| `Text.Lower` | src/pages/CourseUpdates.tsx:100-102 | `toLowerCase` keeps the length and lower-cases every character; no upper-case letter is left |
| `Text.LowerIdempotent` | src/pages/CourseUpdates.tsx:100-102 | lower-casing a lower-cased string changes nothing |
| `Text.Contains` | src/pages/CourseUpdates.tsx:100-102 | `includes` never finds a term longer than the string, and finds a term of the same length exactly when it is the string |
| `Text.ContainsEmpty` | src/pages/CourseUpdates.tsx:100-102 | the empty search term occurs in every field |
| `Text.ContainsSelf` | src/pages/CourseUpdates.tsx:100-102 | every string contains itself |
| `Text.ContainsTransitive` | src/pages/CourseUpdates.tsx:100-102 | a string contained in a substring of a field is contained in the field |
| `Text.Capitalize` | src/pages/CourseUpdates.tsx:235 | the label has the tag's length, an upper-cased first character, the tag's remaining characters, and the same lower-case form as the tag |
| `Sequences.Keep` | src/pages/CourseUpdates.tsx:99-107 | `filter` never lengthens the list |
| `Sequences.KeepMembership` | src/pages/CourseUpdates.tsx:99-107 | `filter` keeps exactly the elements that satisfy the callback |
| `Sequences.KeepLength` | src/pages/CourseUpdates.tsx:99-107 | `filter` keeps one entry per element that satisfies the callback |
| `Sequences.KeepIsSubsequence` | src/pages/CourseUpdates.tsx:99-107 | `filter` keeps the input's relative order (its result is a subsequence of the input) |
| `Sequences.KeepCharacterization` | src/pages/CourseUpdates.tsx:99-107 | a list is the filter's result iff it is a subsequence of the input, all its elements match, and it has one entry per matching input element |
| `Sequences.KeepSplit` | src/pages/CourseUpdates.tsx:109-110 | filtering by a predicate and by its negation gives two lists whose lengths add up to the input's and whose multisets add up to the input's |
| `Sequences.KeepFusion` | src/pages/CourseUpdates.tsx:99-107 | filtering by one check and then another equals filtering once by both |
| `Sequences.KeepCongruence` | src/pages/CourseUpdates.tsx:99-107 | two callbacks that agree on every element give the same filtered list |
| `Sequences.KeepAll` | src/pages/CourseUpdates.tsx:99-107 | a callback that accepts every element leaves the list unchanged |
| `Sequences.Distinct` | src/pages/CourseUpdates.tsx:96 | `Array.from(new Set(s))` has no duplicates, has exactly the values of `s`, and lists them in order of first occurrence |
| `Sequences.DistinctOfNoDuplicates` | src/pages/CourseUpdates.tsx:96 | a list without duplicates passes through the set unchanged |
| `Sequences.DistinctIdempotent` | src/pages/CourseUpdates.tsx:96 | de-duplicating twice is de-duplicating once |
| `CourseFeed.ParseType` | src/pages/CourseUpdates.tsx:28 | a string parsed as a type is that type's tag |
| `CourseFeed.ParseTypeRoundTrip` | src/pages/CourseUpdates.tsx:28 | every type's tag parses back to that type |
| `CourseFeed.TypeOptionsComplete` | src/pages/CourseUpdates.tsx:97 | the type selector lists every type once, only types, and `"all"` is not a type tag |
| `CourseFeed.MatchesSearch` | src/pages/CourseUpdates.tsx:100-102 | the empty term matches every record; a term equal to the record's title up to case matches it; a matching term is no longer than the title, the content or the professor |
| `CourseFeed.MatchesCourse` | src/pages/CourseUpdates.tsx:103 | the selector at `"all"` passes every record; any other value passes exactly the records of that course |
| `CourseFeed.MatchesType` | src/pages/CourseUpdates.tsx:104 | a record passes iff the selector is `"all"` or the selected value parses to the record's type, so a value that is no type tag passes nothing |
| `CourseFeed.FilteredUpdates` | src/pages/CourseUpdates.tsx:99-107 | a record is in `filteredUpdates` iff it is in the input and passes the search, course and type checks; the list is a subsequence of the input |
| `CourseFeed.FilteredUpdatesCharacterization` | src/pages/CourseUpdates.tsx:99-107 | `filteredUpdates` is the only subsequence of the input made of matching records with one entry per matching record |
| `CourseFeed.EmptyQueryKeepsAll` | src/pages/CourseUpdates.tsx:100-106 | an empty search with both selectors on `"all"` returns the whole input |
| `CourseFeed.EmptySearchOnlySelects` | src/pages/CourseUpdates.tsx:100-106 | with an empty search only the course and type checks filter |
| `CourseFeed.SearchIsCaseInsensitive` | src/pages/CourseUpdates.tsx:100-102 | two search terms with the same lower-case form give the same list |
| `CourseFeed.SearchByLowerCase` | src/pages/CourseUpdates.tsx:100-102 | searching for the lower-cased term gives the same list |
| `CourseFeed.LongerSearchNarrows` | src/pages/CourseUpdates.tsx:100-102 | a term that contains another (ignoring case) selects the other's list filtered once more, so a subsequence of it |
| `CourseFeed.SearchFindsOwnTitle` | src/pages/CourseUpdates.tsx:100-102 | searching for a record's title with both selectors on `"all"` finds that record |
| `CourseFeed.SearchIgnoresOtherFields` | src/pages/CourseUpdates.tsx:100-102 | records with equal title, content and professor match the same terms whatever their course, course code or other fields |
| `CourseFeed.CourseSelectionNarrows` | src/pages/CourseUpdates.tsx:103 | with a course selected every kept record has that course, and the list is the `"all"` list filtered by course, so a subsequence of it |
| `CourseFeed.TypeSelectionNarrows` | src/pages/CourseUpdates.tsx:104 | with a type selected every kept record has that type, and the list is the `"all"` list filtered by type, so a subsequence of it |
| `CourseFeed.UnknownTypeShowsNothing` | src/pages/CourseUpdates.tsx:104 | a type selector value that is neither `"all"` nor a type tag keeps no record |
| `CourseFeed.PinnedUpdates` | src/pages/CourseUpdates.tsx:109 | the pinned updates are exactly the pinned records of the filtered list |
| `CourseFeed.RegularUpdates` | src/pages/CourseUpdates.tsx:110 | the regular updates are exactly the unpinned records of the filtered list |
| `CourseFeed.PinnedRegularPartition` | src/pages/CourseUpdates.tsx:109-110 | a filtered record is pinned iff it is among the pinned updates and not pinned iff among the regular ones; both keep the filtered order; their lengths and multisets add up to the filtered list's |
| `CourseFeed.ShowsPinnedSection` | src/pages/CourseUpdates.tsx:216 | the "Pinned Updates" section is shown iff some filtered record is pinned |
| `CourseFeed.ShowsNoResults` | src/pages/CourseUpdates.tsx:322 | "No updates found" is shown iff there are neither pinned nor regular updates |
| `CourseFeed.NoResultsWhenNothingMatches` | src/pages/CourseUpdates.tsx:216-322 | "No updates found" (:322) is shown iff no input record matches, iff both the pinned and the regular lists are empty; the pinned section (:216) is shown iff some filtered record is pinned |
| `CourseFeed.CourseNames` | src/pages/CourseUpdates.tsx:96 | the mapped list has one course per record, at the record's position |
| `CourseFeed.Courses` | src/pages/CourseUpdates.tsx:96 | the course options have no duplicates, are exactly the courses of the input, and are ordered by first appearance |
| `CourseFeed.CoursesStartWithFirstRecord` | src/pages/CourseUpdates.tsx:96 | for a non-empty input the first option is the first record's course |
| `CourseFeed.TypeIcon` | src/pages/CourseUpdates.tsx:112-120 | a string that is no type tag gets `BookOpen`; exactly exam and urgent get `AlertCircle`; exactly the strings other than the assignment, exam, schedule and urgent tags get `BookOpen` |
| `CourseFeed.TypeColor` | src/pages/CourseUpdates.tsx:122-130 | a string that is no type tag gets the default colour; exactly the strings other than the assignment, exam, schedule and urgent tags get it; every result is one of the five badge colours |
| `CourseFeed.TypeStyleLookup` | src/pages/CourseUpdates.tsx:112-130 | tags other than assignment, exam, schedule and urgent get the default icon and colour; exam and urgent share an icon but not a colour; only announcement gets the defaults; the five types' colours are pairwise different |
| `CourseFeed.TypeLabel` | src/pages/CourseUpdates.tsx:207 | a type's label is non-empty, starts with an upper-case letter, continues with the tag's own remaining characters and lower-cases back to the tag (so `"Announcement"` for announcement) |
| `MockFeed.MockCourses` | src/pages/CourseUpdates.tsx:33-96 | the five demonstration records offer Physics, Database Systems, Machine Learning, Calculus and Literature, in that order |
| `MockFeed.MockInitialView` | src/pages/CourseUpdates.tsx:33-110 | on first load all five records are shown, the first two pinned and the other three regular |
| `MockFeed.MockExamSelection` | src/pages/CourseUpdates.tsx:99-107 | selecting the exam type on the demonstration records leaves only the midterm schedule |

## Left out

- src/pages/Auth.tsx: form state held in component state and a submit handler that only logs and shows an alert; there is no authentication or validation logic.
- Rendering: JSX layout, CSS class strings other than the five badge colours, header, links and the closing note; the badge colours are kept as opaque string constants and the icons as a datatype of icon names.
- Animation delays (`index * 0.1` seconds): floating-point and cosmetic.
- React state hooks and `onChange` wiring: the three filter inputs are plain parameters.
- `Text.Lower`: models `toLowerCase` on the ASCII letters only; the full Unicode case mapping of the JavaScript library (multi-character results, locale-independent special cases) is not modelled.
- `Text.Capitalize`: models `toUpperCase` of the first character on the ASCII letters only, for the same reason.
- Strings are sequences of Unicode scalar values, whereas JavaScript's `includes`, `charAt(0)` and `slice(1)` work on UTF-16 code units; the two agree on the ASCII type tags and on text without surrogate pairs, and the model does not capture how a lone surrogate or a character outside the Basic Multilingual Plane is split.
- Attachments are part of the record but nothing in the feed reads them.
- A course literally named `"all"` cannot be selected on its own, because the course selector's sentinel has the same value; the model keeps this behaviour and states nothing special about it.
