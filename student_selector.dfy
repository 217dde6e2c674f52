/**
 * The student picker (client/src/components/arena/StudentSelectorModal.jsx):
 * the list it offers for a filter type and a search term, and the click
 * that hands a student to the caller and closes the modal.
 */
module StudentSelector {
  import opened Wrappers
  import Text
  import Decimal
  import ArenaPage
  import SummaryCard
  import FilterPanel

  /** A student of the roster: its ID and display name. */
  datatype Student = Student(id: int, name: string)

  type StudentFilter = ArenaPage.StudentFilter

  /** "striker" keeps IDs starting "1", "special" IDs starting "2", anything else keeps all. */
  predicate OfType(s: Student, t: StudentFilter) {
    match t
    case Striker => SummaryCard.Leads(s.id, 1)
    case Special => SummaryCard.Leads(s.id, 2)
    case All => true
  }

  /** The search: the lower-cased term occurs in the lower-cased name or in the ID's numeral. */
  predicate Matches(s: Student, lower: string) {
    Text.Contains(Text.ToLower(s.name), lower) || Text.Contains(Decimal.IntToString(s.id), lower)
  }

  function ByType(students: seq<Student>, t: StudentFilter): (r: seq<Student>)
    ensures |r| <= |students|
    ensures forall s :: s in r <==> s in students && OfType(s, t)
  {
    if students == [] then []
    else
      var last := students[|students| - 1];
      ByType(students[..|students| - 1], t) + (if OfType(last, t) then [last] else [])
  }

  function BySearch(students: seq<Student>, lower: string): (r: seq<Student>)
    ensures |r| <= |students|
    ensures forall s :: s in r <==> s in students && Matches(s, lower)
  {
    if students == [] then []
    else
      var last := students[|students| - 1];
      BySearch(students[..|students| - 1], lower) + (if Matches(last, lower) then [last] else [])
  }

  /** Dropping the last element of a + b drops the last element of b. */
  lemma LastOfAppend<T>(a: seq<T>, b: seq<T>)
    requires b != []
    ensures (a + b)[..|a + b| - 1] == a + b[..|b| - 1]
    ensures (a + b)[|a + b| - 1] == b[|b| - 1]
  {
  }

  /** The type filter keeps roster order: filtering a concatenation concatenates the filters. */
  lemma {:induction false} ByTypeAppend(a: seq<Student>, b: seq<Student>, t: StudentFilter)
    ensures ByType(a + b, t) == ByType(a, t) + ByType(b, t)
    decreases |b|
  {
    if b == [] {
      assert a + b == a;
    } else {
      var init := b[..|b| - 1];
      LastOfAppend(a, b);
      ByTypeAppend(a, init, t);
    }
  }

  /** The search keeps order in the same way. */
  lemma {:induction false} BySearchAppend(a: seq<Student>, b: seq<Student>, lower: string)
    ensures BySearch(a + b, lower) == BySearch(a, lower) + BySearch(b, lower)
    decreases |b|
  {
    if b == [] {
      assert a + b == a;
    } else {
      var init := b[..|b| - 1];
      LastOfAppend(a, b);
      BySearchAppend(a, init, lower);
    }
  }

  /**
   * The offered list keeps roster order: the offer for a roster split in
   * two is the offer for the first part followed by the offer for the second.
   */
  lemma FilteredAppend(a: seq<Student>, b: seq<Student>, t: StudentFilter, searchTerm: string)
    ensures FilteredStudents(a + b, t, searchTerm) == FilteredStudents(a, t, searchTerm) + FilteredStudents(b, t, searchTerm)
  {
    ByTypeAppend(a, b, t);
    if searchTerm != "" {
      BySearchAppend(ByType(a, t), ByType(b, t), Text.ToLower(searchTerm));
    }
  }

  /**
   * filteredStudents: the students of the filter type, narrowed by the
   * search term when it is not empty; a student is offered exactly when it
   * is of the type and, for a non-empty term, matches it.
   */
  function FilteredStudents(students: seq<Student>, t: StudentFilter, searchTerm: string): (r: seq<Student>)
    ensures |r| <= |students|
    ensures forall s :: s in r <==> s in students && OfType(s, t) && (searchTerm == "" || Matches(s, Text.ToLower(searchTerm)))
  {
    var result := ByType(students, t);
    if searchTerm == "" then result else BySearch(result, Text.ToLower(searchTerm))
  }

  /** Lower-casing leaves a numeral unchanged. */
  lemma NumeralLower(n: int)
    ensures Text.ToLower(Decimal.IntToString(n)) == Decimal.IntToString(n)
  {
    var s := Decimal.IntToString(n);
    assert forall i :: 0 <= i < |s| ==> Text.ToLowerChar(s[i]) == s[i] by {
      forall i | 0 <= i < |s| ensures Text.ToLowerChar(s[i]) == s[i] {
        assert Decimal.IsDigit(s[i]) || s[i] == '-';
      }
    }
  }

  /** Searching for a student's own ID always offers it, when it is of the filter type. */
  lemma SearchById(students: seq<Student>, t: StudentFilter, s: Student)
    requires s in students && OfType(s, t)
    ensures s in FilteredStudents(students, t, Decimal.IntToString(s.id))
  {
    var num := Decimal.IntToString(s.id);
    NumeralLower(s.id);
    assert Text.OccursAt(num, num, 0) by {
      assert num[0..|num|] == num;
    }
  }

  /**
   * Through the filter panel, the selector opened for slot `index` offers
   * only strikers for slots 0-3 and only specials beyond, so a pick writes
   * the ID of a student of that kind into that slot.
   */
  lemma PickedSlotHasKind(f: FilterPanel.Filters, side: string, index: nat, students: seq<Student>,
                          searchTerm: string, s: Student)
    requires s in FilteredStudents(students, ArenaPage.SelectorFilter(Some(index)), searchTerm)
    ensures var slots := FilterPanel.SlotsOf(FilterPanel.SlotPicked(f, side, index, s.id), FilterPanel.SideOf(side));
            index in slots && slots[index] == s.id
            && (index < 4 ==> SummaryCard.Leads(slots[index], 1))
            && (index >= 4 ==> SummaryCard.Leads(slots[index], 2))
  {
  }

  /** The modal's own state: whether it is shown, its filter type and the search box. */
  class SelectorModal {
    var isOpen: bool
    var filterType: StudentFilter
    var searchTerm: string

    constructor ()
      ensures !isOpen && filterType == ArenaPage.All && searchTerm == ""
    {
      isOpen := false;
      filterType := ArenaPage.All;
      searchTerm := "";
    }

    /** Opening for a slot (handleOpenSelector): the slot picks the filter type; the search text is kept. */
    method Open(index: Option<int>)
      modifies this
      ensures isOpen && filterType == ArenaPage.SelectorFilter(index) && searchTerm == old(searchTerm)
    {
      filterType := ArenaPage.SelectorFilter(index);
      isOpen := true;
    }

    /** Typing in the search box. */
    method Search(text: string)
      modifies this
      ensures searchTerm == text && isOpen == old(isOpen) && filterType == old(filterType)
    {
      searchTerm := text;
    }

    /**
     * A click on an offered student: onSelect receives it, onClose hides
     * the modal and the search box is emptied for the next opening.
     */
    method Select(students: seq<Student>, s: Student) returns (picked: Student)
      requires s in FilteredStudents(students, filterType, searchTerm)
      modifies this
      ensures picked == s && OfType(picked, old(filterType)) && picked in students
      ensures !isOpen && filterType == old(filterType) && searchTerm == ""
    {
      picked := s;
      isOpen := false;
      searchTerm := "";
    }
  }
}
