/** The course-updates feed: the update record, the three filter inputs
    (search term, selected course, selected type), the filtered list, its
    pinned/regular split, the distinct course list offered by the course
    selector, and the per-type icon, colour and label lookups. */
module CourseFeed {
  import opened Text
  import opened Sequences

  datatype Option<T> = None | Some(value: T)

  /** The record's `type` tag; `type` is a Dafny keyword, so the field is `kind`. */
  datatype UpdateType = Announcement | Assignment | Schedule | Exam | Urgent

  datatype CourseUpdate = CourseUpdate(
    id: string,
    title: string,
    content: string,
    professor: string,
    course: string,
    courseCode: string,
    timestamp: string,
    kind: UpdateType,
    isPinned: bool,
    attachments: Option<seq<string>>)

  /** The value both selectors start with and that disables their filter. */
  const AllSentinel: string := "all"

  /** The string a type is written as. */
  function TypeTag(t: UpdateType): (r: string)
  {
    match t
    case Announcement => "announcement"
    case Assignment => "assignment"
    case Schedule => "schedule"
    case Exam => "exam"
    case Urgent => "urgent"
  }

  /** The type whose tag is `tag`, if any. */
  function ParseType(tag: string): (r: Option<UpdateType>)
    ensures r.Some? ==> TypeTag(r.value) == tag
  {
    if tag == "announcement" then Some(Announcement)
    else if tag == "assignment" then Some(Assignment)
    else if tag == "schedule" then Some(Schedule)
    else if tag == "exam" then Some(Exam)
    else if tag == "urgent" then Some(Urgent)
    else None
  }

  /** Every type's tag parses back to that type, so no two types share a tag. */
  lemma ParseTypeRoundTrip(t: UpdateType)
    ensures ParseType(TypeTag(t)) == Some(t)
  {
  }

  /** The options of the type selector, in the order they are listed. */
  const TypeOptions: seq<string> := ["announcement", "assignment", "schedule", "exam", "urgent"]

  /** The type selector lists each type exactly once, and the sentinel is not a type. */
  lemma TypeOptionsComplete()
    ensures NoDuplicates(TypeOptions)
    ensures forall t: UpdateType :: TypeTag(t) in TypeOptions
    ensures forall s :: s in TypeOptions ==> ParseType(s).Some?
    ensures ParseType(AllSentinel) == None
  {
  }

  // ---------------------------------------------------------------------------
  // The filter

  /** Case-insensitive search over title, content and professor only.  The
      empty term matches every record, a record's own title (in any case)
      matches it, and a term longer than all three fields matches nothing. */
  function MatchesSearch(u: CourseUpdate, searchTerm: string): (r: bool)
    ensures searchTerm == "" ==> r
    ensures Lower(searchTerm) == Lower(u.title) ==> r
    ensures r ==> |searchTerm| <= |u.title| || |searchTerm| <= |u.content| || |searchTerm| <= |u.professor|
  {
    ContainsEmpty(Lower(u.title));
    ContainsSelf(Lower(u.title));
    var needle := Lower(searchTerm);
    Contains(Lower(u.title), needle)
      || Contains(Lower(u.content), needle)
      || Contains(Lower(u.professor), needle)
  }

  /** The course check: off at the sentinel, otherwise the record's course
      must be the selected one. */
  function MatchesCourse(u: CourseUpdate, selectedCourse: string): (r: bool)
    ensures selectedCourse == AllSentinel ==> r
    ensures selectedCourse != AllSentinel ==> (r <==> u.course == selectedCourse)
  {
    selectedCourse == AllSentinel || u.course == selectedCourse
  }

  /** The type check: off at the sentinel, otherwise the selected value must
      parse to the record's type; a value that is no type's tag matches nothing. */
  function MatchesType(u: CourseUpdate, selectedType: string): (r: bool)
    ensures r <==> selectedType == AllSentinel || ParseType(selectedType) == Some(u.kind)
  {
    ParseTypeRoundTrip(u.kind);
    selectedType == AllSentinel || TypeTag(u.kind) == selectedType
  }

  predicate Matches(u: CourseUpdate, searchTerm: string, selectedCourse: string, selectedType: string)
  {
    MatchesSearch(u, searchTerm) && MatchesCourse(u, selectedCourse) && MatchesType(u, selectedType)
  }

  /** The filter callback for one setting of the three inputs. */
  function Matcher(searchTerm: string, selectedCourse: string, selectedType: string): (r: CourseUpdate -> bool)
  {
    u => Matches(u, searchTerm, selectedCourse, selectedType)
  }

  /** The two selector checks alone, without the search. */
  function SelectorMatcher(selectedCourse: string, selectedType: string): (r: CourseUpdate -> bool)
  {
    u => MatchesCourse(u, selectedCourse) && MatchesType(u, selectedType)
  }

  function OfCourse(course: string): (r: CourseUpdate -> bool)
  {
    (u: CourseUpdate) => u.course == course
  }

  function OfType(tag: string): (r: CourseUpdate -> bool)
  {
    (u: CourseUpdate) => TypeTag(u.kind) == tag
  }

  /** `filteredUpdates`: the records that pass all three checks, in input order. */
  function FilteredUpdates(updates: seq<CourseUpdate>, searchTerm: string, selectedCourse: string,
                           selectedType: string): (r: seq<CourseUpdate>)
    ensures forall u :: u in r ==> u in updates && Matches(u, searchTerm, selectedCourse, selectedType)
    ensures forall u :: u in updates && Matches(u, searchTerm, selectedCourse, selectedType) ==> u in r
    ensures IsSubsequence(r, updates)
  {
    KeepIsSubsequence(updates, Matcher(searchTerm, selectedCourse, selectedType));
    KeepMembership(updates, Matcher(searchTerm, selectedCourse, selectedType));
    Keep(updates, Matcher(searchTerm, selectedCourse, selectedType))
  }

  /** `FilteredUpdates` is the only order-preserving subsequence of the input
      made of matching records that has one entry per matching record. */
  lemma FilteredUpdatesCharacterization(updates: seq<CourseUpdate>, searchTerm: string,
                                        selectedCourse: string, selectedType: string, r: seq<CourseUpdate>)
    ensures r == FilteredUpdates(updates, searchTerm, selectedCourse, selectedType) <==>
            && IsSubsequence(r, updates)
            && (forall u :: u in r ==> Matches(u, searchTerm, selectedCourse, selectedType))
            && |r| == Count(updates, Matcher(searchTerm, selectedCourse, selectedType))
  {
    KeepCharacterization(r, updates, Matcher(searchTerm, selectedCourse, selectedType));
  }

  /** With an empty search and both selectors on "all", nothing is filtered out. */
  lemma EmptyQueryKeepsAll(updates: seq<CourseUpdate>)
    ensures FilteredUpdates(updates, "", AllSentinel, AllSentinel) == updates
  {
    forall u | u in updates ensures Matches(u, "", AllSentinel, AllSentinel) {
      ContainsEmpty(Lower(u.title));
    }
    KeepAll(updates, Matcher("", AllSentinel, AllSentinel));
  }

  /** An empty search term matches every record, so only the selectors filter. */
  lemma EmptySearchOnlySelects(updates: seq<CourseUpdate>, selectedCourse: string, selectedType: string)
    ensures FilteredUpdates(updates, "", selectedCourse, selectedType)
         == Keep(updates, SelectorMatcher(selectedCourse, selectedType))
  {
    forall u | u in updates ensures MatchesSearch(u, "") {
      ContainsEmpty(Lower(u.title));
    }
    KeepCongruence(updates, Matcher("", selectedCourse, selectedType), SelectorMatcher(selectedCourse, selectedType));
  }

  /** The search ignores case: two terms with the same lower-case form select the same records. */
  lemma SearchIsCaseInsensitive(updates: seq<CourseUpdate>, term1: string, term2: string,
                                selectedCourse: string, selectedType: string)
    requires Lower(term1) == Lower(term2)
    ensures FilteredUpdates(updates, term1, selectedCourse, selectedType)
         == FilteredUpdates(updates, term2, selectedCourse, selectedType)
  {
    KeepCongruence(updates, Matcher(term1, selectedCourse, selectedType),
                   Matcher(term2, selectedCourse, selectedType));
  }

  /** In particular, searching for the lower-cased term is the same search. */
  lemma SearchByLowerCase(updates: seq<CourseUpdate>, searchTerm: string,
                          selectedCourse: string, selectedType: string)
    ensures FilteredUpdates(updates, Lower(searchTerm), selectedCourse, selectedType)
         == FilteredUpdates(updates, searchTerm, selectedCourse, selectedType)
  {
    LowerIdempotent(searchTerm);
    SearchIsCaseInsensitive(updates, Lower(searchTerm), searchTerm, selectedCourse, selectedType);
  }

  /** Typing more of a search term can only narrow the list: when the new
      term contains the old one (ignoring case), the new list is the old list
      filtered once more. */
  lemma LongerSearchNarrows(updates: seq<CourseUpdate>, term: string, longer: string,
                            selectedCourse: string, selectedType: string)
    requires Contains(Lower(longer), Lower(term))
    ensures FilteredUpdates(updates, longer, selectedCourse, selectedType)
         == Keep(FilteredUpdates(updates, term, selectedCourse, selectedType),
                 Matcher(longer, selectedCourse, selectedType))
    ensures IsSubsequence(FilteredUpdates(updates, longer, selectedCourse, selectedType),
                          FilteredUpdates(updates, term, selectedCourse, selectedType))
  {
    var narrow := Matcher(longer, selectedCourse, selectedType);
    forall u | MatchesSearch(u, longer) ensures MatchesSearch(u, term) {
      if Contains(Lower(u.title), Lower(longer)) {
        ContainsTransitive(Lower(u.title), Lower(longer), Lower(term));
      } else if Contains(Lower(u.content), Lower(longer)) {
        ContainsTransitive(Lower(u.content), Lower(longer), Lower(term));
      } else {
        ContainsTransitive(Lower(u.professor), Lower(longer), Lower(term));
      }
    }
    KeepFusion(updates, Matcher(term, selectedCourse, selectedType), narrow, narrow);
    KeepIsSubsequence(FilteredUpdates(updates, term, selectedCourse, selectedType), narrow);
  }

  /** Searching for a record's own title, with both selectors on "all", finds it. */
  lemma SearchFindsOwnTitle(updates: seq<CourseUpdate>, u: CourseUpdate)
    requires u in updates
    ensures u in FilteredUpdates(updates, u.title, AllSentinel, AllSentinel)
  {
    ContainsSelf(Lower(u.title));
  }

  /** The search reads only title, content and professor: records that differ
      elsewhere (course, course code, id, timestamp, type, pin, attachments)
      match the same terms. */
  lemma SearchIgnoresOtherFields(u: CourseUpdate, v: CourseUpdate, searchTerm: string)
    requires u.title == v.title && u.content == v.content && u.professor == v.professor
    ensures MatchesSearch(u, searchTerm) == MatchesSearch(v, searchTerm)
  {
  }

  /** Selecting a course keeps exactly the records of that course from the
      list the other two filters give. */
  lemma CourseSelectionNarrows(updates: seq<CourseUpdate>, searchTerm: string,
                               selectedCourse: string, selectedType: string)
    requires selectedCourse != AllSentinel
    ensures forall u :: u in FilteredUpdates(updates, searchTerm, selectedCourse, selectedType)
                        ==> u.course == selectedCourse
    ensures FilteredUpdates(updates, searchTerm, selectedCourse, selectedType)
         == Keep(FilteredUpdates(updates, searchTerm, AllSentinel, selectedType), OfCourse(selectedCourse))
    ensures IsSubsequence(FilteredUpdates(updates, searchTerm, selectedCourse, selectedType),
                          FilteredUpdates(updates, searchTerm, AllSentinel, selectedType))
  {
    var ofCourse := OfCourse(selectedCourse);
    KeepFusion(updates, Matcher(searchTerm, AllSentinel, selectedType), ofCourse,
               Matcher(searchTerm, selectedCourse, selectedType));
    KeepIsSubsequence(FilteredUpdates(updates, searchTerm, AllSentinel, selectedType), ofCourse);
  }

  /** Selecting a type keeps exactly the records of that type from the list
      the other two filters give. */
  lemma TypeSelectionNarrows(updates: seq<CourseUpdate>, searchTerm: string,
                             selectedCourse: string, selectedType: string)
    requires selectedType != AllSentinel
    ensures forall u :: u in FilteredUpdates(updates, searchTerm, selectedCourse, selectedType)
                        ==> ParseType(selectedType) == Some(u.kind)
    ensures FilteredUpdates(updates, searchTerm, selectedCourse, selectedType)
         == Keep(FilteredUpdates(updates, searchTerm, selectedCourse, AllSentinel), OfType(selectedType))
    ensures IsSubsequence(FilteredUpdates(updates, searchTerm, selectedCourse, selectedType),
                          FilteredUpdates(updates, searchTerm, selectedCourse, AllSentinel))
  {
    var ofType := OfType(selectedType);
    forall u | u in FilteredUpdates(updates, searchTerm, selectedCourse, selectedType)
      ensures ParseType(selectedType) == Some(u.kind)
    {
      ParseTypeRoundTrip(u.kind);
    }
    KeepFusion(updates, Matcher(searchTerm, selectedCourse, AllSentinel), ofType,
               Matcher(searchTerm, selectedCourse, selectedType));
    KeepIsSubsequence(FilteredUpdates(updates, searchTerm, selectedCourse, AllSentinel), ofType);
  }

  /** A type selector value that is neither "all" nor a type tag shows nothing. */
  lemma UnknownTypeShowsNothing(updates: seq<CourseUpdate>, searchTerm: string,
                                selectedCourse: string, selectedType: string)
    requires selectedType != AllSentinel && ParseType(selectedType) == None
    ensures FilteredUpdates(updates, searchTerm, selectedCourse, selectedType) == []
  {
    var r := FilteredUpdates(updates, searchTerm, selectedCourse, selectedType);
    if r != [] {
      assert r[0] in r;
      ParseTypeRoundTrip(r[0].kind);
    }
  }

  // ---------------------------------------------------------------------------
  // Pinned and regular updates

  predicate IsPinned(u: CourseUpdate) { u.isPinned }

  predicate IsRegular(u: CourseUpdate) { !u.isPinned }

  /** `pinnedUpdates`. */
  function PinnedUpdates(filtered: seq<CourseUpdate>): (r: seq<CourseUpdate>)
    ensures forall u :: u in r ==> u in filtered && u.isPinned
    ensures forall u :: u in filtered && u.isPinned ==> u in r
  {
    KeepMembership(filtered, IsPinned);
    Keep(filtered, IsPinned)
  }

  /** `regularUpdates`. */
  function RegularUpdates(filtered: seq<CourseUpdate>): (r: seq<CourseUpdate>)
    ensures forall u :: u in r ==> u in filtered && !u.isPinned
    ensures forall u :: u in filtered && !u.isPinned ==> u in r
  {
    KeepMembership(filtered, IsRegular);
    Keep(filtered, IsRegular)
  }

  /** The pinned and the regular updates partition the filtered list: each
      keeps its relative order, and together they hold every filtered record
      exactly as often as the filtered list does. */
  lemma PinnedRegularPartition(filtered: seq<CourseUpdate>)
    ensures forall u :: u in filtered ==> (u in PinnedUpdates(filtered) <==> u.isPinned)
    ensures forall u :: u in filtered ==> (u in RegularUpdates(filtered) <==> !u.isPinned)
    ensures IsSubsequence(PinnedUpdates(filtered), filtered)
    ensures IsSubsequence(RegularUpdates(filtered), filtered)
    ensures |PinnedUpdates(filtered)| + |RegularUpdates(filtered)| == |filtered|
    ensures multiset(PinnedUpdates(filtered)) + multiset(RegularUpdates(filtered)) == multiset(filtered)
  {
    KeepIsSubsequence(filtered, IsPinned);
    KeepIsSubsequence(filtered, IsRegular);
    KeepSplit(filtered, IsPinned, IsRegular);
    KeepMembership(filtered, IsPinned);
    KeepMembership(filtered, IsRegular);
  }

  /** The "Pinned Updates" section is rendered when there are pinned updates,
      that is, when some filtered record is pinned. */
  function ShowsPinnedSection(filtered: seq<CourseUpdate>): (r: bool)
    ensures r <==> exists u :: u in filtered && u.isPinned
  {
    var p := PinnedUpdates(filtered);
    assert p != [] ==> p[0] in p;
    |p| > 0
  }

  /** The "No updates found" block is rendered when the filtered list is
      empty, that is, when there are neither pinned nor regular updates. */
  function ShowsNoResults(filtered: seq<CourseUpdate>): (r: bool)
    ensures r <==> PinnedUpdates(filtered) == [] && RegularUpdates(filtered) == []
  {
    PinnedRegularPartition(filtered);
    |filtered| == 0
  }

  /** "No updates found" appears exactly when no record passes the filter, and
      exactly when both the pinned and the regular lists are empty; the pinned
      section appears exactly when some passing record is pinned. */
  lemma NoResultsWhenNothingMatches(updates: seq<CourseUpdate>, searchTerm: string,
                                    selectedCourse: string, selectedType: string)
    ensures var filtered := FilteredUpdates(updates, searchTerm, selectedCourse, selectedType);
            && (ShowsNoResults(filtered) <==>
                  forall u :: u in updates ==> !Matches(u, searchTerm, selectedCourse, selectedType))
            && (ShowsNoResults(filtered) <==> PinnedUpdates(filtered) == [] && RegularUpdates(filtered) == [])
            && (ShowsPinnedSection(filtered) <==> exists u :: u in filtered && u.isPinned)
  {
    var filtered := FilteredUpdates(updates, searchTerm, selectedCourse, selectedType);
    PinnedRegularPartition(filtered);
    if filtered != [] {
      assert filtered[0] in filtered;
    }
    if exists u :: u in filtered && u.isPinned {
      var u :| u in filtered && u.isPinned;
      assert u in PinnedUpdates(filtered);
    }
    if ShowsPinnedSection(filtered) {
      var p := PinnedUpdates(filtered);
      assert p[0] in p;
    }
  }

  // ---------------------------------------------------------------------------
  // The course selector

  /** The `course` of every record, in order. */
  function CourseNames(updates: seq<CourseUpdate>): (names: seq<string>)
    ensures |names| == |updates|
    ensures forall i :: 0 <= i < |updates| ==> names[i] == updates[i].course
  {
    seq(|updates|, i requires 0 <= i < |updates| => updates[i].course)
  }

  /** `courses`: each course of the input once, in order of first appearance. */
  function Courses(updates: seq<CourseUpdate>): (r: seq<string>)
    ensures NoDuplicates(r)
    ensures forall c :: c in r ==> exists u :: u in updates && u.course == c
    ensures forall u :: u in updates ==> u.course in r
    ensures forall c :: c in r ==> c in CourseNames(updates)
    ensures forall i, j :: 0 <= i < j < |r| ==>
              FirstIndex(CourseNames(updates), r[i]) < FirstIndex(CourseNames(updates), r[j])
  {
    var names := CourseNames(updates);
    var r := Distinct(names);
    assert forall c :: c in r ==> exists u :: u in updates && u.course == c by {
      forall c | c in r ensures exists u :: u in updates && u.course == c {
        var k := FirstIndex(names, c);
        assert updates[k] in updates;
      }
    }
    assert forall u :: u in updates ==> u.course in names by {
      forall u | u in updates ensures u.course in names {
        var k :| 0 <= k < |updates| && updates[k] == u;
        assert names[k] == u.course;
      }
    }
    r
  }

  /** The first course in the list is the course of the first record. */
  lemma CoursesStartWithFirstRecord(updates: seq<CourseUpdate>)
    requires updates != []
    ensures Courses(updates) != [] && Courses(updates)[0] == updates[0].course
  {
  }

  // ---------------------------------------------------------------------------
  // Type icon, colour and label

  datatype Icon = FileText | AlertCircle | Calendar | BookOpen

  const AssignmentColor: string := "bg-blue-500/10 text-blue-400 border-blue-500/20"
  const ExamColor: string := "bg-red-500/10 text-red-400 border-red-500/20"
  const ScheduleColor: string := "bg-yellow-500/10 text-yellow-400 border-yellow-500/20"
  const UrgentColor: string := "bg-orange-500/10 text-orange-400 border-orange-500/20"
  const DefaultColor: string := "bg-primary/10 text-primary border-primary/20"

  /** `getTypeIcon`: defined for every string, `BookOpen` for unknown tags. */
  function TypeIcon(tag: string): (r: Icon)
    ensures ParseType(tag).None? ==> r == BookOpen
    ensures r == AlertCircle <==> tag == "exam" || tag == "urgent"
    ensures r == BookOpen <==> ParseType(tag) !in {Some(Assignment), Some(Exam), Some(Schedule), Some(Urgent)}
  {
    if tag == "assignment" then FileText
    else if tag == "exam" then AlertCircle
    else if tag == "schedule" then Calendar
    else if tag == "urgent" then AlertCircle
    else BookOpen
  }

  /** `getTypeColor`: defined for every string, the primary colour for unknown tags. */
  function TypeColor(tag: string): (r: string)
    ensures ParseType(tag).None? ==> r == DefaultColor
    ensures r == DefaultColor <==> ParseType(tag) !in {Some(Assignment), Some(Exam), Some(Schedule), Some(Urgent)}
    ensures r in {AssignmentColor, ExamColor, ScheduleColor, UrgentColor, DefaultColor}
  {
    if tag == "assignment" then AssignmentColor
    else if tag == "exam" then ExamColor
    else if tag == "schedule" then ScheduleColor
    else if tag == "urgent" then UrgentColor
    else DefaultColor
  }

  /** Any tag other than the four styled ones gets the default icon and colour
      (this includes "announcement"); exam and urgent share an icon but not a
      colour; the styled types' colours differ from each other and from the default. */
  lemma TypeStyleLookup()
    ensures forall tag :: tag !in {"assignment", "exam", "schedule", "urgent"} ==>
              TypeIcon(tag) == BookOpen && TypeColor(tag) == DefaultColor
    ensures TypeIcon("exam") == TypeIcon("urgent") && TypeColor("exam") != TypeColor("urgent")
    ensures forall t: UpdateType :: TypeIcon(TypeTag(t)) == BookOpen <==> t == Announcement
    ensures forall t: UpdateType :: TypeColor(TypeTag(t)) == DefaultColor <==> t == Announcement
    ensures forall t1: UpdateType, t2: UpdateType ::
              t1 != t2 ==> TypeColor(TypeTag(t1)) != TypeColor(TypeTag(t2))
  {
  }

  /** The label shown on a badge and in the type selector. */
  function TypeLabel(t: UpdateType): (r: string)
    ensures Lower(r) == TypeTag(t)
    ensures |r| > 0 && IsUpper(r[0])
    ensures r[1..] == TypeTag(t)[1..]
  {
    var tag := TypeTag(t);
    LowerOfLowerCase(tag);
    Capitalize(tag)
  }
}
