/**
 * The hobby picker of the client (website/client/src/Pages/Hobbies/HobbiesPage.js):
 * a fixed catalogue of eight hobbies and the list of selected names, which a
 * click toggles.
 */
module HobbiesPage {

  /** A catalogue entry (its icon is display only). */
  datatype Hobby = Hobby(id: nat, name: string)

  const Catalogue: seq<Hobby> := [
    Hobby(1, "Yoga"), Hobby(2, "Basketball"), Hobby(3, "Reading"), Hobby(4, "Swimming"),
    Hobby(5, "Pilates"), Hobby(6, "Ceramics"), Hobby(7, "Movie"), Hobby(8, "Tennis")
  ]

  /** Whether no name occurs twice. */
  predicate NoDuplicates(s: seq<string>)
  {
    forall i, j :: 0 <= i < j < |s| ==> s[i] != s[j]
  }

  /** The names of the catalogue. */
  predicate InCatalogue(name: string)
  {
    exists i :: 0 <= i < |Catalogue| && Catalogue[i].name == name
  }

  /** `list` without any occurrence of `hobby`, the other names kept in order. */
  function RemoveAll(list: seq<string>, hobby: string): (r: seq<string>)
    ensures hobby !in r
    ensures forall x :: x in r <==> x in list && x != hobby
    ensures |r| <= |list|
  {
    if list == [] then []
    else if list[0] == hobby then RemoveAll(list[1..], hobby)
    else [list[0]] + RemoveAll(list[1..], hobby)
  }

  /**
   * A click on a hobby: a selected hobby is removed (every occurrence), an
   * unselected one is appended at the end.
   */
  function Toggle(selected: seq<string>, hobby: string): (r: seq<string>)
    ensures hobby in r <==> hobby !in selected
    ensures hobby in selected ==> r == RemoveAll(selected, hobby)
    ensures forall x :: x != hobby ==> (x in r <==> x in selected)
    ensures hobby !in selected ==> |r| == |selected| + 1 && r[..|selected|] == selected && r[|selected|] == hobby
  {
    if hobby in selected then RemoveAll(selected, hobby) else selected + [hobby]
  }

  /** Removal distributes over concatenation: the names that stay keep their relative order. */
  lemma {:induction false} RemoveAllConcat(a: seq<string>, b: seq<string>, hobby: string)
    ensures RemoveAll(a + b, hobby) == RemoveAll(a, hobby) + RemoveAll(b, hobby)
  {
    if a != [] {
      RemoveAllConcat(a[1..], b, hobby);
      assert (a + b)[1..] == a[1..] + b;
    } else {
      assert a + b == b;
    }
  }

  /** Removing an absent name changes nothing. */
  lemma {:induction false} RemoveAllAbsent(list: seq<string>, hobby: string)
    requires hobby !in list
    ensures RemoveAll(list, hobby) == list
  {
    if list != [] {
      RemoveAllAbsent(list[1..], hobby);
    }
  }

  /** Removal never creates a duplicate. */
  lemma {:induction false} RemoveAllKeepsNoDuplicates(list: seq<string>, hobby: string)
    requires NoDuplicates(list)
    ensures NoDuplicates(RemoveAll(list, hobby))
  {
    if list != [] {
      assert NoDuplicates(list[1..]) by {
        forall i, j | 0 <= i < j < |list[1..]|
          ensures list[1..][i] != list[1..][j]
        {
          assert list[1..][i] == list[i + 1] && list[1..][j] == list[j + 1];
        }
      }
      RemoveAllKeepsNoDuplicates(list[1..], hobby);
      if list[0] != hobby {
        var rest := RemoveAll(list[1..], hobby);
        assert forall j :: 0 <= j < |list[1..]| ==> list[1..][j] == list[j + 1];
        assert list[0] !in list[1..];
        var r := [list[0]] + rest;
        forall i, j | 0 <= i < j < |r|
          ensures r[i] != r[j]
        {
          if i == 0 {
            assert r[j] == rest[j - 1] && rest[j - 1] in rest;
          } else {
            assert r[i] == rest[i - 1] && r[j] == rest[j - 1];
          }
        }
      }
    }
  }

  /** A toggle keeps a list without duplicates free of duplicates. */
  lemma ToggleKeepsNoDuplicates(selected: seq<string>, hobby: string)
    requires NoDuplicates(selected)
    ensures NoDuplicates(Toggle(selected, hobby))
  {
    if hobby in selected {
      RemoveAllKeepsNoDuplicates(selected, hobby);
    } else {
      var r := selected + [hobby];
      forall i, j | 0 <= i < j < |r|
        ensures r[i] != r[j]
      {
        if j == |selected| {
          assert r[i] == selected[i];
        } else {
          assert r[i] == selected[i] && r[j] == selected[j];
        }
      }
    }
  }

  /** Two clicks on an unselected hobby restore the list. */
  lemma ToggleTwiceAbsentRestores(selected: seq<string>, hobby: string)
    requires hobby !in selected
    ensures Toggle(Toggle(selected, hobby), hobby) == selected
  {
    RemoveAllConcat(selected, [hobby], hobby);
    RemoveAllAbsent(selected, hobby);
    assert RemoveAll([hobby], hobby) == [];
    assert selected + [] == selected;
  }

  /** Two clicks on a selected hobby move it to the end, the others kept in order. */
  lemma ToggleTwicePresentMovesToEnd(selected: seq<string>, hobby: string)
    requires hobby in selected
    ensures Toggle(Toggle(selected, hobby), hobby) == RemoveAll(selected, hobby) + [hobby]
  {
  }

  /** The selection after a sequence of clicks on catalogue entries, starting from none. */
  function SelectionAfter(clicks: seq<nat>): (selected: seq<string>)
    requires forall k :: 0 <= k < |clicks| ==> clicks[k] < |Catalogue|
  {
    if clicks == [] then []
    else Toggle(SelectionAfter(clicks[..|clicks| - 1]), Catalogue[clicks[|clicks| - 1]].name)
  }

  /** Whatever the clicks, the selection has no duplicates and holds catalogue names only. */
  lemma {:induction false} SelectionIsCatalogueSet(clicks: seq<nat>)
    requires forall k :: 0 <= k < |clicks| ==> clicks[k] < |Catalogue|
    ensures NoDuplicates(SelectionAfter(clicks))
    ensures forall x :: x in SelectionAfter(clicks) ==> InCatalogue(x)
  {
    if clicks != [] {
      var init := clicks[..|clicks| - 1];
      SelectionIsCatalogueSet(init);
      var last := clicks[|clicks| - 1];
      ToggleKeepsNoDuplicates(SelectionAfter(init), Catalogue[last].name);
      assert InCatalogue(Catalogue[last].name);
    }
  }

  /** A catalogue entry shows as selected exactly after an odd number of clicks on it. */
  lemma {:induction false} SelectedIffOddClicks(clicks: seq<nat>, i: nat)
    requires forall k :: 0 <= k < |clicks| ==> clicks[k] < |Catalogue|
    requires i < |Catalogue|
    ensures Catalogue[i].name in SelectionAfter(clicks) <==> ClickCount(clicks, i) % 2 == 1
  {
    if clicks != [] {
      var init := clicks[..|clicks| - 1];
      var last := clicks[|clicks| - 1];
      SelectedIffOddClicks(init, i);
      CatalogueNamesDistinct(last, i);
      var before := SelectionAfter(init);
      var name := Catalogue[last].name;
      assert SelectionAfter(clicks) == Toggle(before, name);
      assert ClickCount(clicks, i) == ClickCount(init, i) + (if last == i then 1 else 0);
      ToggleFlipsParity(before, name, Catalogue[i].name, ClickCount(init, i), last == i);
    }
  }

  /** Helper: a click flips the membership of the clicked name and of no other, and so the parity of its count. */
  lemma ToggleFlipsParity(before: seq<string>, hobby: string, x: string, count: nat, hit: bool)
    requires x in before <==> count % 2 == 1
    requires hit <==> x == hobby
    ensures x in Toggle(before, hobby) <==> (count + (if hit then 1 else 0)) % 2 == 1
  {
  }

  /** How many of the clicks fall on entry `i`. */
  function ClickCount(clicks: seq<nat>, i: nat): (n: nat)
    ensures n <= |clicks|
  {
    if clicks == [] then 0
    else ClickCount(clicks[..|clicks| - 1], i) + (if clicks[|clicks| - 1] == i then 1 else 0)
  }

  /** Helper: two catalogue entries have the same name only when they are the same entry. */
  lemma CatalogueNamesDistinct(i: nat, j: nat)
    requires i < |Catalogue| && j < |Catalogue|
    ensures Catalogue[i].name == Catalogue[j].name <==> i == j
  {
    var names := seq(|Catalogue|, k requires 0 <= k < |Catalogue| => Catalogue[k].name);
    assert names == ["Yoga", "Basketball", "Reading", "Swimming", "Pilates", "Ceramics", "Movie", "Tennis"];
    assert names[i] == Catalogue[i].name && names[j] == Catalogue[j].name;
  }
}
