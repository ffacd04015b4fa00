/** The five demonstration records the page shows, and what the feed
    operations give on them. */
module MockFeed {
  import opened Sequences
  import opened CourseFeed

  const LabRescheduled: CourseUpdate := CourseUpdate(
    "1",
    "Lab Session Rescheduled - Important",
    "The Physics Lab session scheduled for Thursday has been moved to Friday 2:00 PM due to equipment maintenance. Please bring your lab manuals.",
    "Dr. Sarah Smith",
    "Physics",
    "PHY101",
    "2 hours ago",
    Urgent,
    true,
    None)

  const DeadlineExtended: CourseUpdate := CourseUpdate(
    "2",
    "Assignment Deadline Extended",
    "The Database Design project deadline has been extended to next Friday (Dec 22nd) at 11:59 PM. Make sure to submit your ER diagrams and normalized tables.",
    "Prof. Mike Johnson",
    "Database Systems",
    "CS201",
    "4 hours ago",
    Assignment,
    true,
    None)

  const GuestLecture: CourseUpdate := CourseUpdate(
    "3",
    "Guest Lecture: AI in Healthcare",
    "We have a special guest lecturer from Google AI team joining us next Tuesday to discuss applications of machine learning in healthcare.",
    "Dr. Emily Chen",
    "Machine Learning",
    "CS301",
    "1 day ago",
    Announcement,
    false,
    None)

  const MidtermSchedule: CourseUpdate := CourseUpdate(
    "4",
    "Midterm Exam Schedule",
    "Midterm exams will be held on December 18th, 10:00 AM - 12:00 PM in Room 205. Topics covered: Chapters 1-6. Calculators allowed.",
    "Dr. Robert Lee",
    "Calculus",
    "MATH101",
    "2 days ago",
    Exam,
    false,
    None)

  const ReadingMaterials: CourseUpdate := CourseUpdate(
    "5",
    "New Reading Materials Available",
    "I've uploaded additional reading materials for next week's lectures. Please check the course portal and complete the readings before class.",
    "Prof. Lisa Williams",
    "Literature",
    "ENG201",
    "3 days ago",
    Announcement,
    false,
    None)

  const MockUpdates: seq<CourseUpdate> :=
    [LabRescheduled, DeadlineExtended, GuestLecture, MidtermSchedule, ReadingMaterials]

  /** The course selector offers the five courses in the order the records list them. */
  lemma MockCourses()
    ensures Courses(MockUpdates) == ["Physics", "Database Systems", "Machine Learning", "Calculus", "Literature"]
  {
    var names: seq<string> := ["Physics", "Database Systems", "Machine Learning", "Calculus", "Literature"];
    var cn := CourseNames(MockUpdates);
    assert cn[0] == "Physics" && cn[1] == "Database Systems" && cn[2] == "Machine Learning";
    assert cn[3] == "Calculus" && cn[4] == "Literature";
    assert cn == names;
    DistinctOfNoDuplicates(names);
  }

  /** On first load (empty search, both selectors "all") every record is
      shown: the first two under the pinned updates and the other three under
      the recent updates. */
  lemma MockInitialView()
    ensures FilteredUpdates(MockUpdates, "", AllSentinel, AllSentinel) == MockUpdates
    ensures PinnedUpdates(MockUpdates) == [LabRescheduled, DeadlineExtended]
    ensures RegularUpdates(MockUpdates) == [GuestLecture, MidtermSchedule, ReadingMaterials]
  {
    EmptyQueryKeepsAll(MockUpdates);
    KeepFirstTwoOfFive(LabRescheduled, DeadlineExtended, GuestLecture, MidtermSchedule, ReadingMaterials, IsPinned);
    KeepLastThreeOfFive(LabRescheduled, DeadlineExtended, GuestLecture, MidtermSchedule, ReadingMaterials, IsRegular);
  }

  /** Selecting the "exam" type leaves only the midterm record. */
  lemma MockExamSelection()
    ensures FilteredUpdates(MockUpdates, "", AllSentinel, "exam") == [MidtermSchedule]
  {
    EmptySearchOnlySelects(MockUpdates, AllSentinel, "exam");
    KeepFourthOfFive(LabRescheduled, DeadlineExtended, GuestLecture, MidtermSchedule, ReadingMaterials,
                     SelectorMatcher(AllSentinel, "exam"));
  }

  // `Keep` on five elements, unfolded one element at a time.

  lemma KeepFirstTwoOfFive<T>(a: T, b: T, c: T, d: T, e: T, p: T -> bool)
    requires p(a) && p(b) && !p(c) && !p(d) && !p(e)
    ensures Keep([a, b, c, d, e], p) == [a, b]
  {
    assert Keep([e], p) == [] by { KeepCons(e, [], p); assert [e] == [e] + []; }
    assert Keep([d, e], p) == [] by { KeepCons(d, [e], p); assert [d, e] == [d] + [e]; }
    assert Keep([c, d, e], p) == [] by { KeepCons(c, [d, e], p); assert [c, d, e] == [c] + [d, e]; }
    assert Keep([b, c, d, e], p) == [b] by { KeepCons(b, [c, d, e], p); assert [b, c, d, e] == [b] + [c, d, e]; }
    KeepCons(a, [b, c, d, e], p);
    assert [a, b, c, d, e] == [a] + [b, c, d, e];
  }

  lemma KeepLastThreeOfFive<T>(a: T, b: T, c: T, d: T, e: T, p: T -> bool)
    requires !p(a) && !p(b) && p(c) && p(d) && p(e)
    ensures Keep([a, b, c, d, e], p) == [c, d, e]
  {
    var s3 := [c, d, e];
    assert Keep(s3, p) == s3 by {
      KeepAll(s3, p);
    }
    assert Keep([b] + s3, p) == s3 by { KeepCons(b, s3, p); }
    KeepCons(a, [b] + s3, p);
    assert [a, b, c, d, e] == [a] + ([b] + s3);
  }

  lemma KeepFourthOfFive<T>(a: T, b: T, c: T, d: T, e: T, p: T -> bool)
    requires !p(a) && !p(b) && !p(c) && p(d) && !p(e)
    ensures Keep([a, b, c, d, e], p) == [d]
  {
    assert Keep([e], p) == [] by { KeepCons(e, [], p); assert [e] == [e] + []; }
    assert Keep([d, e], p) == [d] by { KeepCons(d, [e], p); assert [d, e] == [d] + [e]; }
    assert Keep([c, d, e], p) == [d] by { KeepCons(c, [d, e], p); assert [c, d, e] == [c] + [d, e]; }
    assert Keep([b, c, d, e], p) == [d] by { KeepCons(b, [c, d, e], p); assert [b, c, d, e] == [b] + [c, d, e]; }
    KeepCons(a, [b, c, d, e], p);
    assert [a, b, c, d, e] == [a] + [b, c, d, e];
  }
}
