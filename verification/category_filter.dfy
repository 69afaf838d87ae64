/**
 * The category filter panel (`CategoryFilter.tsx`): the new selection each
 * button hands to `onChange`.
 */
module CategoryFilter {
  import opened Common
  import opened Categories

  /** `c => c !== slug`. */
  function Other(slug: string): string -> bool {
    (c: string) => c != slug
  }

  /** `handleToggle`: a selected slug is removed (every occurrence), any
      other slug is appended. */
  function Toggle(selected: seq<string>, slug: string): (r: seq<string>)
    ensures slug in selected ==> slug !in r && forall c :: c in r <==> c in selected && c != slug
    ensures slug !in selected ==> r == selected + [slug]
  {
    if slug in selected then Filter(selected, Other(slug)) else selected + [slug]
  }

  /** `handleSelectAll`. */
  function SelectAll(): (r: seq<string>)
    ensures |r| == 8 && forall slug :: slug in r <==> GetCategoryInfo(slug).icon != DefaultIcon
  {
    EightDistinctSlugs();
    forall slug | slug in CategorySlugs() ensures GetCategoryInfo(slug).icon != DefaultIcon {
      KnownSlugsHaveOwnIcon(slug);
    }
    CategorySlugs()
  }

  /** `handleClearAll`. */
  function ClearAll(): (r: seq<string>)
    ensures r == []
  {
    []
  }

  predicate NoDuplicates(s: seq<string>) {
    forall i, j :: 0 <= i < j < |s| ==> s[i] != s[j]
  }

  /** Removing the slug keeps the other slugs in their order. */
  lemma {:induction false} ToggleOffKeepsOrder(selected: seq<string>, slug: string, other: seq<string>)
    requires slug !in other
    ensures Toggle(selected + [slug] + other, slug) == Filter(selected, Other(slug)) + other
  {
    var a := selected + [slug];
    var s := a + other;
    assert slug in s by {
      assert s[|selected|] == slug;
    }
    FilterAppend(a, other, Other(slug));
    FilterAppend(selected, [slug], Other(slug));
    DropsSlug(slug);
    FilterKeepsAll(other, slug);
    calc {
      Toggle(s, slug);
      Filter(a, Other(slug)) + Filter(other, Other(slug));
      Filter(selected, Other(slug)) + [] + other;
    }
    assert Filter(selected, Other(slug)) + [] == Filter(selected, Other(slug));
  }

  lemma DropsSlug(slug: string)
    ensures Filter([slug], Other(slug)) == []
  {
    assert [slug][1..] == [];
  }

  lemma {:induction false} FilterKeepsAll(s: seq<string>, slug: string)
    requires slug !in s
    ensures Filter(s, Other(slug)) == s
  {
    if s != [] {
      FilterKeepsAll(s[1..], slug);
      assert s == [s[0]] + s[1..];
    }
  }

  /** Toggling a slug that is not selected twice gives back the selection
      it started from. */
  lemma ToggleTwice(selected: seq<string>, slug: string)
    requires slug !in selected
    ensures Toggle(Toggle(selected, slug), slug) == selected
  {
    ToggleOffKeepsOrder(selected, slug, []);
    FilterKeepsAll(selected, slug);
    assert selected + [slug] + [] == selected + [slug];
  }

  /** Toggling keeps a selection free of duplicates. */
  lemma ToggleKeepsNoDuplicates(selected: seq<string>, slug: string)
    requires NoDuplicates(selected)
    ensures NoDuplicates(Toggle(selected, slug))
  {
    if slug in selected {
      FilterNoDuplicates(selected, slug);
    }
  }

  lemma {:induction false} FilterNoDuplicates(s: seq<string>, slug: string)
    requires NoDuplicates(s)
    ensures NoDuplicates(Filter(s, Other(slug)))
  {
    if s != [] {
      assert NoDuplicates(s[1..]) by {
        forall i, j | 0 <= i < j < |s[1..]| ensures s[1..][i] != s[1..][j] {
          assert s[1..][i] == s[i + 1] && s[1..][j] == s[j + 1];
        }
      }
      FilterNoDuplicates(s[1..], slug);
      assert s[0] !in s[1..] by {
        forall k | 0 <= k < |s[1..]| ensures s[1..][k] != s[0] {
          assert s[1..][k] == s[k + 1];
        }
      }
    }
  }
}
