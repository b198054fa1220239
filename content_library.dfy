/** The content library: which items a level unlocks, which are recommended, and the type filter. */
module ContentLibrary {
  import opened Wrappers
  import opened Types
  import opened Seqs
  import opened Constants

  function AvailableAt(level: int): Content -> bool {
    (c: Content) => level >= c.minLevel
  }

  function LockedAt(level: int): Content -> bool {
    (c: Content) => level < c.minLevel
  }

  function MinLevelIs(level: int): Content -> bool {
    (c: Content) => c.minLevel == level
  }

  function HasId(id: string): Content -> bool {
    (c: Content) => c.id == id
  }

  /** `available`: the items whose `minLevel` the level reaches. */
  function Available(contents: seq<Content>, level: int): seq<Content> {
    Filter(contents, AvailableAt(level))
  }

  /** `locked`: the items above the level. */
  function Locked(contents: seq<Content>, level: int): seq<Content> {
    Filter(contents, LockedAt(level))
  }

  /** `recommended`: the first two available items made for exactly this level. */
  function Recommended(contents: seq<Content>, level: int): seq<Content> {
    Take(Filter(Available(contents, level), MinLevelIs(level)), 2)
  }

  /** Kept in `others`: no recommended item carries the same id (`!recommended.find(r => r.id === c.id)`). */
  function NotRecommended(recommended: seq<Content>): Content -> bool {
    (c: Content) => Find(recommended, HasId(c.id)).None?
  }

  /** `others`: the available items not recommended. */
  function Others(contents: seq<Content>, level: int): seq<Content> {
    Filter(Available(contents, level), NotRecommended(Recommended(contents, level)))
  }

  /** The type filter's buttons: everything, or one content type. */
  datatype TypeFilter = All | OnlyType(kind: ContentType)

  function MatchesFilter(filter: TypeFilter): Content -> bool {
    (c: Content) => filter.All? || c.kind == filter.kind
  }

  /** `filterItems`. */
  function FilterItems(items: seq<Content>, filter: TypeFilter): seq<Content> {
    Filter(items, MatchesFilter(filter))
  }

  function ForContent(contentId: string): Exam -> bool {
    (e: Exam) => e.contentId == contentId
  }

  /** The exam the "start assessment" button opens for the selected item; `None` hides the button. */
  function ExamFor(exams: seq<Exam>, selected: Content): Option<Exam> {
    Find(exams, ForContent(selected.id))
  }

  /** Every item is available or locked, never both, by comparing the level with `minLevel` alone; together
      the two lists hold the whole list once, each keeping the original order. */
  lemma {:induction false} AvailableLockedPartition(contents: seq<Content>, more: seq<Content>, level: int)
    ensures forall c :: c in contents ==>
      (c in Available(contents, level) <==> level >= c.minLevel) &&
      (c in Locked(contents, level) <==> level < c.minLevel)
    ensures multiset(Available(contents, level)) + multiset(Locked(contents, level)) == multiset(contents)
    ensures Available(contents + more, level) == Available(contents, level) + Available(more, level)
    ensures Locked(contents + more, level) == Locked(contents, level) + Locked(more, level)
  {
    FilterComplement(contents, AvailableAt(level), LockedAt(level));
    FilterAppend(contents, more, AvailableAt(level));
    FilterAppend(contents, more, LockedAt(level));
  }

  /** `maxLevel` plays no part: setting every item's `maxLevel` to anything leaves the same items available. */
  function WithMaxLevel(contents: seq<Content>, maxLevel: int): (r: seq<Content>)
    ensures |r| == |contents|
    ensures forall i :: 0 <= i < |r| ==> r[i] == contents[i].(maxLevel := maxLevel)
  {
    if contents == [] then [] else [contents[0].(maxLevel := maxLevel)] + WithMaxLevel(contents[1..], maxLevel)
  }

  lemma {:induction false} MaxLevelIgnored(contents: seq<Content>, maxLevel: int, level: int)
    ensures Available(WithMaxLevel(contents, maxLevel), level) == WithMaxLevel(Available(contents, level), maxLevel)
    ensures Locked(WithMaxLevel(contents, maxLevel), level) == WithMaxLevel(Locked(contents, level), maxLevel)
  {
    if contents != [] {
      MaxLevelIgnored(contents[1..], maxLevel, level);
      assert WithMaxLevel(contents, maxLevel)[1..] == WithMaxLevel(contents[1..], maxLevel);
      var c := contents[0];
      if AvailableAt(level)(c) {
        assert WithMaxLevel([c] + Available(contents[1..], level), maxLevel)
            == [c.(maxLevel := maxLevel)] + WithMaxLevel(Available(contents[1..], level), maxLevel);
      } else {
        assert WithMaxLevel([c] + Locked(contents[1..], level), maxLevel)
            == [c.(maxLevel := maxLevel)] + WithMaxLevel(Locked(contents[1..], level), maxLevel);
      }
    }
  }

  /** At most two recommendations, taken in order from the front of the available items made for this level. */
  lemma RecommendedIsShortPrefix(contents: seq<Content>, level: int)
    ensures var pool := Filter(Available(contents, level), MinLevelIs(level));
      var r := Recommended(contents, level);
      |r| <= 2 && |r| == (if |pool| < 2 then |pool| else 2) && r == pool[..|r|]
    ensures forall c :: c in Recommended(contents, level) ==> c in contents && c.minLevel == level
  {
    var pool := Filter(Available(contents, level), MinLevelIs(level));
    var r := Recommended(contents, level);
    forall c | c in r
      ensures c in contents && c.minLevel == level
    {
      assert c in pool;
    }
  }

  /** Nothing is both recommended and in `others`. */
  lemma RecommendedOthersDisjoint(contents: seq<Content>, level: int, c: Content)
    ensures !(c in Recommended(contents, level) && c in Others(contents, level))
  {
    var rec := Recommended(contents, level);
    if c in rec {
      assert HasId(c.id)(c);
      assert Find(rec, HasId(c.id)).Some?;
    }
  }

  /** With distinct ids, every available item is recommended or in `others`. (With a repeated id an item can
      drop out of both: `others` excludes by id, not by item.) */
  lemma RecommendedOthersCover(contents: seq<Content>, level: int)
    requires DistinctContentIds(contents)
    ensures forall c :: c in Available(contents, level) <==>
      c in Recommended(contents, level) || c in Others(contents, level)
  {
    RecommendedIsShortPrefix(contents, level);
  }

  /** 'ALL' shows every item; a type shows exactly the items of that type, in order. */
  lemma FilterItemsSpec(items: seq<Content>, t: ContentType)
    ensures FilterItems(items, All) == items
    ensures forall c :: c in FilterItems(items, OnlyType(t)) <==> c in items && c.kind == t
  {
    FilterKeepsAll(items, MatchesFilter(All));
  }

  /** The type filter never reorders: filtering a concatenation filters each part and keeps them in order, and a
      single item is kept exactly when it matches. Together these fix the result item by item. */
  lemma FilterItemsKeepsOrder(a: seq<Content>, b: seq<Content>, c: Content, filter: TypeFilter)
    ensures FilterItems(a + b, filter) == FilterItems(a, filter) + FilterItems(b, filter)
    ensures FilterItems([c], filter) == (if filter.All? || c.kind == filter.kind then [c] else [])
  {
    FilterAppend(a, b, MatchesFilter(filter));
    FilterSingle(c, MatchesFilter(filter));
  }

  /** The button opens the first exam made for the selected item, and is shown exactly when one exists. */
  lemma ExamForSpec(exams: seq<Exam>, selected: Content)
    ensures ExamFor(exams, selected).None? <==> forall e :: e in exams ==> e.contentId != selected.id
    ensures ExamFor(exams, selected).Some? ==>
      exists i :: 0 <= i < |exams| && exams[i] == ExamFor(exams, selected).value &&
        exams[i].contentId == selected.id && forall j :: 0 <= j < i ==> exams[j].contentId != selected.id
  {
  }

  /** With the mock content, a level-1 citizen is recommended c1 and finds c2 locked. */
  lemma MockLibraryAtLevelOne()
    ensures Recommended(MOCK_CONTENTS, 1) == [MOCK_CONTENTS[0]]
    ensures Locked(MOCK_CONTENTS, 1) == [MOCK_CONTENTS[1]]
    ensures Others(MOCK_CONTENTS, 1) == []
  {
    assert MOCK_CONTENTS[1..][1..] == [];
  }
}
