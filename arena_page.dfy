/**
 * The arena page's selection of summaries for batch deletion
 * (client/src/pages/Arena/ArenaPage.jsx): the composite key
 * `server|season|atk_sig|def_sig|tag` of an item and its parse, check
 * toggling, select-all on the current page, the reset on every query
 * change, the batch-delete payload, and the selector's filter type.
 */
module ArenaPage {
  import opened Wrappers
  import Text
  import Decimal

  /** A summary row as the page receives it; a null tag is None. */
  datatype Item = Item(server: string, season: int, atkSig: string, defSig: string, tag: Option<string>)

  /** `item.tag || ""`. */
  function TagText(tag: Option<string>): string {
    if tag.Some? then tag.value else ""
  }

  /** getItemKey. */
  function ItemKey(item: Item): string {
    item.server + "|" + Decimal.IntToString(item.season) + "|" + item.atkSig + "|" + item.defSig + "|" + TagText(item.tag)
  }

  /**
   * One entry of the batch-delete request. A part the key does not have is
   * undefined in JavaScript (None here), and parseInt of a non-numeral is
   * NaN (None).
   */
  datatype BatchItem = BatchItem(server: Option<string>, season: Option<int>, atkSig: Option<string>,
                                 defSig: Option<string>, tag: string)

  function Part(parts: seq<string>, i: nat): Option<string> {
    if i < |parts| then Some(parts[i]) else None
  }

  /** The parse in handleBatchDelete: split on "|", the parts from the fifth on rejoined as the tag. */
  function ParseKey(key: string): (b: BatchItem)
    ensures var parts := Text.Split(key, '|');
            b.server == Some(parts[0]) && (|parts| >= 4 <==> b.defSig.Some?)
  {
    var parts := Text.Split(key, '|');
    var season := if |parts| > 1 then Decimal.JsParseInt(parts[1]) else None;
    BatchItem(Part(parts, 0), season, Part(parts, 2), Part(parts, 3),
              Text.Join(if |parts| > 4 then parts[4..] else [], "|"))
  }

  /**
   * The parse recovers every field of the item when server and signatures
   * hold no "|" and the season is a safe integer, whatever the tag holds; a
   * null tag comes back as "".
   */
  lemma KeyRoundTrip(item: Item)
    requires '|' !in item.server && '|' !in item.atkSig && '|' !in item.defSig
    requires Decimal.SafeInteger(item.season)
    ensures ParseKey(ItemKey(item))
            == BatchItem(Some(item.server), Some(item.season), Some(item.atkSig), Some(item.defSig), TagText(item.tag))
  {
    var seasonText := Decimal.IntToString(item.season);
    var tag := TagText(item.tag);
    Decimal.NumeralHasNo(item.season, '|');
    var r3 := item.defSig + "|" + tag;
    var r2 := item.atkSig + "|" + r3;
    var r1 := seasonText + "|" + r2;
    assert ItemKey(item) == item.server + ['|'] + r1;
    Text.SplitCons(item.server, r1, '|');
    Text.SplitCons(seasonText, r2, '|');
    Text.SplitCons(item.atkSig, r3, '|');
    Text.SplitCons(item.defSig, tag, '|');
    var parts := Text.Split(ItemKey(item), '|');
    assert parts == [item.server, seasonText, item.atkSig, item.defSig] + Text.Split(tag, '|');
    assert parts[4..] == Text.Split(tag, '|');
    Text.JoinSplit(tag, '|');
    Decimal.JsParseIntItoa(item.season);
  }

  /** Two items with the same key agree on every field (a null tag counting as ""). */
  lemma ItemKeyInjective(a: Item, b: Item)
    requires '|' !in a.server && '|' !in a.atkSig && '|' !in a.defSig
    requires '|' !in b.server && '|' !in b.atkSig && '|' !in b.defSig
    requires Decimal.SafeInteger(a.season) && Decimal.SafeInteger(b.season)
    requires ItemKey(a) == ItemKey(b)
    ensures a.server == b.server && a.season == b.season && a.atkSig == b.atkSig && a.defSig == b.defSig
    ensures TagText(a.tag) == TagText(b.tag)
  {
    KeyRoundTrip(a);
    KeyRoundTrip(b);
  }

  /** The keys of the items on the page, in page order. */
  function KeyList(items: seq<Item>): (keys: seq<string>)
    ensures |keys| == |items|
  {
    seq(|items|, i requires 0 <= i < |items| => ItemKey(items[i]))
  }

  /** The set of a sequence of keys. */
  function KeySet(keys: seq<string>): set<string> {
    if keys == [] then {} else KeySet(keys[..|keys| - 1]) + {keys[|keys| - 1]}
  }

  function PageKeys(items: seq<Item>): set<string> {
    KeySet(KeyList(items))
  }

  /** KeySet holds exactly the keys of the sequence. */
  lemma {:induction false} KeySetMembers(keys: seq<string>, k: string)
    ensures k in KeySet(keys) <==> k in keys
  {
    if keys != [] {
      KeySetMembers(keys[..|keys| - 1], k);
      assert keys == keys[..|keys| - 1] + [keys[|keys| - 1]];
    }
  }

  /** Every item's key is among the page's keys, and every page key is some item's. */
  lemma PageKeysMembers(items: seq<Item>, k: string)
    ensures k in PageKeys(items) <==> exists i :: 0 <= i < |items| && ItemKey(items[i]) == k
  {
    KeySetMembers(KeyList(items), k);
    if k in KeyList(items) {
      var i :| 0 <= i < |items| && KeyList(items)[i] == k;
    }
    if exists i :: 0 <= i < |items| && ItemKey(items[i]) == k {
      var i :| 0 <= i < |items| && ItemKey(items[i]) == k;
      assert KeyList(items)[i] == k;
    }
  }

  /** summaries.every(item => selected.has(getItemKey(item))) on a non-empty page. */
  predicate AllSelected(selected: set<string>, items: seq<Item>) {
    |items| > 0 && PageKeys(items) <= selected
  }

  /**
   * The selection after select-all: the page's keys removed when the page
   * is non-empty and fully selected, otherwise all added; other keys are
   * untouched.
   */
  function SelectAllResult(selected: set<string>, items: seq<Item>): (r: set<string>)
    ensures forall k :: k !in PageKeys(items) ==> (k in r <==> k in selected)
    ensures AllSelected(selected, items) ==> r !! PageKeys(items)
    ensures !AllSelected(selected, items) ==> PageKeys(items) <= r
  {
    if AllSelected(selected, items) then selected - PageKeys(items) else selected + PageKeys(items)
  }

  /**
   * Pressing select-all twice on a non-empty page restores a selection that
   * held the whole page, and otherwise leaves none of the page selected and
   * the rest as it was.
   */
  lemma SelectAllTwice(selected: set<string>, items: seq<Item>)
    requires |items| > 0
    ensures var twice := SelectAllResult(SelectAllResult(selected, items), items);
            if AllSelected(selected, items) then twice == selected else twice == selected - PageKeys(items)
  {
    var keys := PageKeys(items);
    var once := SelectAllResult(selected, items);
    PageKeysMembers(items, ItemKey(items[0]));
    if AllSelected(selected, items) {
      assert !AllSelected(once, items);
      assert once + keys == selected;
    } else {
      assert AllSelected(once, items);
      assert once - keys == selected - keys;
    }
  }

  /** The selection state of the page. */
  class Selection {
    var selected: set<string>

    constructor ()
      ensures selected == {}
    {
      selected := {};
    }

    /** handleToggleCheck: adds or removes that item's key and no other. */
    method ToggleCheck(item: Item, checked: bool)
      modifies this
      ensures selected == if checked then old(selected) + {ItemKey(item)} else old(selected) - {ItemKey(item)}
    {
      var key := ItemKey(item);
      if checked {
        selected := selected + {key};
      } else {
        selected := selected - {key};
      }
    }

    /** handleSelectAllPage: the every() scan, then the forEach of deletes or adds. */
    method SelectAllPage(summaries: seq<Item>)
      modifies this
      ensures selected == SelectAllResult(old(selected), summaries)
    {
      var keys := KeyList(summaries);
      var allSelected := EverySelected(selected, keys);
      var newSet := ApplyToPage(selected, keys, !allSelected);
      selected := newSet;
    }

    /** The effect that runs whenever page, season, sort, filters or server change. */
    method OnQueryChange()
      modifies this
      ensures selected == {}
    {
      selected := {};
    }

    /**
     * handleBatchDelete, once confirmed: nothing with an empty selection;
     * otherwise one parsed item per selected key, and the selection is
     * emptied when the request succeeds.
     */
    method BatchDelete(succeeded: bool) returns (sent: Option<seq<BatchItem>>)
      modifies this
      ensures old(selected) == {} ==> sent.None? && selected == {}
      ensures old(selected) != {} ==> sent.Some? && |sent.value| == |old(selected)|
      ensures sent.Some? ==> forall k :: k in old(selected) ==> ParseKey(k) in sent.value
      ensures sent.Some? ==> forall i :: 0 <= i < |sent.value| ==> sent.value[i] in Parsed(old(selected))
      ensures selected == if sent.Some? && succeeded then {} else old(selected)
    {
      if |selected| == 0 {
        return None;
      }
      var items := ItemsToDelete(selected);
      sent := Some(items);
      if succeeded {
        selected := {};
      }
    }
  }

  /** summaries.length > 0 && summaries.every(...) on the page's keys: the scan stops at the first unselected key. */
  method EverySelected(selected: set<string>, keys: seq<string>) returns (all: bool)
    ensures all == (|keys| > 0 && KeySet(keys) <= selected)
  {
    all := |keys| > 0;
    var i := 0;
    while i < |keys| && all
      invariant 0 <= i <= |keys|
      invariant all ==> |keys| > 0 && KeySet(keys[..i]) <= selected
      invariant !all && |keys| > 0 ==> 0 < i && keys[i - 1] !in selected
    {
      assert keys[..i + 1][..i] == keys[..i];
      all := keys[i] in selected;
      i := i + 1;
    }
    if all {
      assert keys[..|keys|] == keys;
    } else if |keys| > 0 {
      KeySetMembers(keys, keys[i - 1]);
    }
  }

  /** The forEach over the page's keys: each added (add) or deleted (!add) in turn. */
  method ApplyToPage(start: set<string>, keys: seq<string>, add: bool) returns (newSet: set<string>)
    ensures newSet == if add then start + KeySet(keys) else start - KeySet(keys)
  {
    newSet := start;
    for j := 0 to |keys|
      invariant newSet == if add then start + KeySet(keys[..j]) else start - KeySet(keys[..j])
    {
      assert keys[..j + 1][..j] == keys[..j];
      if add {
        newSet := newSet + {keys[j]};
      } else {
        newSet := newSet - {keys[j]};
      }
    }
    assert keys[..|keys|] == keys;
  }

  /**
   * Array.from(s).map(f): one image per element, in the set's iteration
   * order, so every element's image is listed and nothing else is.
   */
  method MapSet<T, U>(s: set<T>, f: T -> U) returns (images: seq<U>)
    ensures |images| == |s|
    ensures forall x :: x in s ==> f(x) in images
    ensures forall i :: 0 <= i < |images| ==> images[i] in Image(s, f)
  {
    images := [];
    var rest := s;
    ghost var done: set<T> := {};
    while rest != {}
      invariant done + rest == s && done !! rest
      invariant |images| == |done|
      invariant forall x :: x in done ==> f(x) in images
      invariant forall i :: 0 <= i < |images| ==> images[i] in Image(done, f)
      decreases |rest|
    {
      var x :| x in rest;
      MoveOne(done, rest, x, s);
      ImageGrows(done, x, f);
      images := images + [f(x)];
      rest := rest - {x};
      done := done + {x};
    }
  }

  /** The images of a set's elements under f. */
  function Image<T, U>(s: set<T>, f: T -> U): set<U> {
    set x | x in s :: f(x)
  }

  lemma ImageGrows<T, U>(s: set<T>, x: T, f: T -> U)
    ensures Image(s, f) <= Image(s + {x}, f) && f(x) in Image(s + {x}, f)
  {
  }

  /** Array.from(selectedSet).map(parse): one item per key, in the set's iteration order. */
  method ItemsToDelete(keys: set<string>) returns (items: seq<BatchItem>)
    ensures |items| == |keys|
    ensures forall k :: k in keys ==> ParseKey(k) in items
    ensures forall i :: 0 <= i < |items| ==> items[i] in Parsed(keys)
  {
    items := MapSet(keys, ParseKey);
    assert Image(keys, ParseKey) == Parsed(keys);
  }

  /** The parsed items of a set of keys. */
  function Parsed(keys: set<string>): set<BatchItem> {
    set k | k in keys :: ParseKey(k)
  }

  /**
   * Moving one element from the remaining part of a set to the finished
   * part keeps the two disjoint and covering the set, grows the finished
   * part by one and shrinks the remaining part.
   */
  lemma MoveOne<T>(done: set<T>, rest: set<T>, x: T, all: set<T>)
    requires done + rest == all && done !! rest && x in rest
    ensures (done + {x}) + (rest - {x}) == all && (done + {x}) !! (rest - {x})
    ensures |done + {x}| == |done| + 1 && |rest - {x}| < |rest|
  {
  }

  /** The student filter of the selector: strikers for slots 0-3, specials beyond, all without a slot. */
  datatype StudentFilter = All | Striker | Special

  /** handleOpenSelector's filter type. */
  function SelectorFilter(index: Option<int>): (t: StudentFilter)
    ensures index.None? <==> t == All
    ensures index.Some? ==> (t == Striker <==> index.value < 4)
  {
    if index.Some? then (if index.value < 4 then Striker else Special) else All
  }

  /** loadMeta: a selected season missing from the fetched list is cleared. */
  function SeasonAfterLoad(season: Option<int>, seasons: seq<int>): (s: Option<int>)
    ensures s.Some? ==> s == season && (s.value == 0 || s.value in seasons)
    ensures season.Some? && season.value in seasons ==> s == season
  {
    if season.Some? && season.value != 0 && season.value !in seasons then None else season
  }
}
