/**
 * The "My Themes" dashboard view: an in-memory, ordered list of theme records
 * seeded with five entries. Delete drops the records with a given id; edit,
 * preview and download only announce themselves.
 */
module DashboardThemes {
  import opened Toasts
  import opened Text

  /** One theme record; `kind` is the record's `type` field. */
  datatype Theme = Theme(id: int, name: string, kind: string, lastModified: string, preview: string)

  /** The five records the view starts with, in display order. */
  const SeedThemes: seq<Theme> := [
    Theme(1, "Business Pro", "Business", "2 days ago", "/lovable-uploads/f1c029fb-9214-468d-8426-700129fcec9e.png"),
    Theme(2, "Real Estate Modern", "Real Estate", "1 week ago", "/placeholder.svg"),
    Theme(3, "Educational Platform", "Education", "2 weeks ago", "/placeholder.svg"),
    Theme(4, "Tech Startup", "SaaS", "1 month ago", "/placeholder.svg"),
    Theme(5, "Portfolio Minimal", "Portfolio", "1 month ago", "/placeholder.svg")
  ]

  const DeletedMessage := "Theme deleted successfully!"

  /** Some record of the list carries `id`. */
  predicate HasId(themes: seq<Theme>, id: int) {
    exists t :: t in themes && t.id == id
  }

  /** No two records of the list share an id. */
  predicate UniqueIds(themes: seq<Theme>) {
    forall i, j :: 0 <= i < j < |themes| ==> themes[i].id != themes[j].id
  }

  /** How many records carry `id`. */
  function CountId(themes: seq<Theme>, id: int): (n: nat)
    ensures n <= |themes|
  {
    if themes == [] then 0
    else (if themes[0].id == id then 1 else 0) + CountId(themes[1..], id)
  }

  /** The count is zero exactly when no record carries `id`. */
  lemma {:induction false} CountIdZero(themes: seq<Theme>, id: int)
    ensures CountId(themes, id) == 0 <==> !HasId(themes, id)
  {
    if themes != [] {
      CountIdZero(themes[1..], id);
      assert forall t :: t in themes <==> t == themes[0] || t in themes[1..];
    }
  }

  /**
   * `themes.filter(theme => theme.id !== id)`: exactly the records whose id
   * differs from `id`, and one fewer record for every record dropped.
   */
  function RemoveId(themes: seq<Theme>, id: int): (r: seq<Theme>)
    ensures |r| <= |themes|
  {
    if themes == [] then []
    else (if themes[0].id != id then [themes[0]] else []) + RemoveId(themes[1..], id)
  }

  /** The filter keeps exactly the records whose id differs from `id`. */
  lemma {:induction false} RemoveIdMembers(themes: seq<Theme>, id: int)
    ensures forall t :: t in RemoveId(themes, id) <==> t in themes && t.id != id
  {
    if themes != [] {
      RemoveIdMembers(themes[1..], id);
      assert forall t :: t in themes <==> t == themes[0] || t in themes[1..];
    }
  }

  /** One record fewer for every record that carries `id`. */
  lemma {:induction false} RemoveIdLength(themes: seq<Theme>, id: int)
    ensures |RemoveId(themes, id)| == |themes| - CountId(themes, id)
  {
    if themes != [] {
      RemoveIdLength(themes[1..], id);
    }
  }

  /** The filter works piecewise, so the kept records stay in their relative order. */
  lemma {:induction false} RemoveIdAppend(a: seq<Theme>, b: seq<Theme>, id: int)
    ensures RemoveId(a + b, id) == RemoveId(a, id) + RemoveId(b, id)
  {
    if a != [] {
      assert (a + b)[0] == a[0];
      assert (a + b)[1..] == a[1..] + b;
      RemoveIdAppend(a[1..], b, id);
      var h := if a[0].id != id then [a[0]] else [];
      assert RemoveId(a + b, id) == h + (RemoveId(a[1..], id) + RemoveId(b, id));
      assert RemoveId(a, id) == h + RemoveId(a[1..], id);
      assert (h + RemoveId(a[1..], id)) + RemoveId(b, id) == h + (RemoveId(a[1..], id) + RemoveId(b, id));
    } else {
      assert a + b == b;
    }
  }

  /** Filtering a prefix of the list gives a prefix of the filtered list. */
  lemma {:induction false} RemoveIdOfPrefix(themes: seq<Theme>, id: int, k: nat)
    requires k <= |themes|
    ensures RemoveId(themes[..k], id) <= RemoveId(themes, id)
  {
    assert themes == themes[..k] + themes[k..];
    RemoveIdAppend(themes[..k], themes[k..], id);
  }

  /** Deleting an id that no record carries leaves the list as it was. */
  lemma {:induction false} RemoveIdAbsent(themes: seq<Theme>, id: int)
    requires !HasId(themes, id)
    ensures RemoveId(themes, id) == themes
  {
    if themes != [] {
      assert themes[0] in themes;
      assert forall t :: t in themes[1..] ==> t in themes;
      RemoveIdAbsent(themes[1..], id);
    }
  }

  /** Deleting the same id twice is deleting it once. */
  lemma RemoveIdIdempotent(themes: seq<Theme>, id: int)
    ensures RemoveId(RemoveId(themes, id), id) == RemoveId(themes, id)
  {
    RemoveIdMembers(themes, id);
    RemoveIdAbsent(RemoveId(themes, id), id);
  }

  /** Deletions of two ids can happen in either order. */
  lemma {:induction false} RemoveIdCommutes(themes: seq<Theme>, a: int, b: int)
    ensures RemoveId(RemoveId(themes, a), b) == RemoveId(RemoveId(themes, b), a)
  {
    if themes != [] {
      var t := themes[0];
      var rest := themes[1..];
      RemoveIdCommutes(rest, a, b);
      var ta := if t.id != a then [t] else [];
      var tb := if t.id != b then [t] else [];
      RemoveIdAppend(ta, RemoveId(rest, a), b);
      RemoveIdAppend(tb, RemoveId(rest, b), a);
    }
  }

  /** With unique ids, the filter keeps them unique. */
  lemma {:induction false} RemoveIdKeepsUnique(themes: seq<Theme>, id: int)
    requires UniqueIds(themes)
    ensures UniqueIds(RemoveId(themes, id))
  {
    if themes != [] {
      var rest := themes[1..];
      assert UniqueIds(rest) by {
        forall i, j | 0 <= i < j < |rest| ensures rest[i].id != rest[j].id {
          assert themes[i + 1].id != themes[j + 1].id;
        }
      }
      RemoveIdKeepsUnique(rest, id);
      RemoveIdMembers(rest, id);
      var tail := RemoveId(rest, id);
      if themes[0].id != id {
        forall k | 0 <= k < |tail| ensures tail[k].id != themes[0].id {
          assert tail[k] in rest;
          var m :| 0 <= m < |rest| && rest[m] == tail[k];
          assert themes[m + 1] == tail[k];
        }
      }
    }
  }

  /** With unique ids, a present id is carried by exactly one record. */
  lemma {:induction false} CountIdUnique(themes: seq<Theme>, id: int)
    requires UniqueIds(themes) && HasId(themes, id)
    ensures CountId(themes, id) == 1
  {
    var rest := themes[1..];
    assert UniqueIds(rest) by {
      forall i, j | 0 <= i < j < |rest| ensures rest[i].id != rest[j].id {
        assert themes[i + 1].id != themes[j + 1].id;
      }
    }
    if themes[0].id == id {
      forall t | t in rest ensures t.id != id {
        var m :| 0 <= m < |rest| && rest[m] == t;
        assert themes[m + 1] == t;
      }
      CountIdZero(rest, id);
    } else {
      var t :| t in themes && t.id == id;
      assert t in rest;
      CountIdUnique(rest, id);
    }
  }

  /** With unique ids, deleting a present id removes exactly one record. */
  lemma RemovePresentShrinksByOne(themes: seq<Theme>, id: int)
    requires UniqueIds(themes) && HasId(themes, id)
    ensures |RemoveId(themes, id)| == |themes| - 1
  {
    CountIdUnique(themes, id);
    RemoveIdLength(themes, id);
  }

  /** The seed list has five records with ids 1 to 5 in order. */
  lemma SeedIds()
    ensures |SeedThemes| == 5
    ensures forall i :: 0 <= i < 5 ==> SeedThemes[i].id == i + 1
    ensures UniqueIds(SeedThemes)
  {
  }

  /** Deleting theme 3 from the seed list leaves the other four, in order. */
  lemma DeleteThreeFromSeed()
    ensures RemoveId(SeedThemes, 3) == [SeedThemes[0], SeedThemes[1], SeedThemes[3], SeedThemes[4]]
    ensures !HasId(RemoveId(SeedThemes, 3), 3)
  {
    var s := SeedThemes;
    assert s == s[..2] + [s[2]] + s[3..];
    RemoveIdAppend(s[..2] + [s[2]], s[3..], 3);
    RemoveIdAppend(s[..2], [s[2]], 3);
    RemoveIdAbsent(s[..2], 3);
    RemoveIdAbsent(s[3..], 3);
  }

  /** The notification an action on theme `id` shows: the action's text followed by the id. */
  function ActionMessage(action: string, id: int): string {
    action + IntToString(id)
  }

  /** An action's message names exactly one theme. */
  lemma ActionMessageNamesId(action: string, a: int, b: int)
    requires ActionMessage(action, a) == ActionMessage(action, b)
    ensures a == b
  {
    assert IntToString(a) == ActionMessage(action, a)[|action|..];
    assert IntToString(b) == ActionMessage(action, b)[|action|..];
    IntToStringInjective(a, b);
  }

  /** The view's state: the current list and the notifications shown so far. */
  class ThemeList {
    var themes: seq<Theme>
    var log: seq<Toast>

    /** Records keep distinct ids. */
    ghost predicate Valid()
      reads this
    {
      UniqueIds(themes)
    }

    constructor ()
      ensures Valid()
      ensures themes == SeedThemes && log == []
    {
      themes := SeedThemes;
      log := [];
    }

    /** The trash button: drop the records with `id` and report success, found or not. */
    method DeleteTheme(id: int)
      requires Valid()
      modifies this
      ensures Valid()
      ensures themes == RemoveId(old(themes), id)
      ensures !HasId(themes, id)
      ensures HasId(old(themes), id) ==> |themes| == |old(themes)| - 1
      ensures log == old(log) + [Toast(Success, DeletedMessage)]
    {
      RemoveIdKeepsUnique(themes, id);
      RemoveIdMembers(themes, id);
      if HasId(themes, id) {
        RemovePresentShrinksByOne(themes, id);
      }
      themes := RemoveId(themes, id);
      log := log + [Toast(Success, DeletedMessage)];
    }

    /** The edit button: only a notification naming the theme. */
    method EditTheme(id: int)
      modifies this`log
      ensures themes == old(themes)
      ensures log == old(log) + [Toast(Success, ActionMessage("Editing theme ", id))]
    {
      log := log + [Toast(Success, ActionMessage("Editing theme ", id))];
    }

    /** The preview button: only a notification naming the theme. */
    method PreviewTheme(id: int)
      modifies this`log
      ensures themes == old(themes)
      ensures log == old(log) + [Toast(Success, ActionMessage("Previewing theme ", id))]
    {
      log := log + [Toast(Success, ActionMessage("Previewing theme ", id))];
    }

    /** The download button: only a notification naming the theme. */
    method DownloadTheme(id: int)
      modifies this`log
      ensures themes == old(themes)
      ensures log == old(log) + [Toast(Success, ActionMessage("Downloading theme ", id))]
    {
      log := log + [Toast(Success, ActionMessage("Downloading theme ", id))];
    }
  }
}
