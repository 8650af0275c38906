/**
 * The event-creation form of the admin dashboard (app/admin/page.tsx):
 * `slugify`, the rule by which the slug field follows the name field, and the
 * slug finally submitted.
 */
module Slug {
  import Text
  import Lists

  /** The characters a slug is made of. */
  predicate IsSlugChar(c: char) { Text.IsLowerLetter(c) || Text.IsDigit(c) || c == '-' }

  /** A string made of slug characters that neither starts nor ends with a hyphen. */
  predicate IsSlug(s: string)
  {
    && (forall i :: 0 <= i < |s| ==> IsSlugChar(s[i]))
    && (s == [] || (s[0] != '-' && s[|s| - 1] != '-'))
  }

  /** Characters kept by `.replace(/[^\w\s-]/g, '')`. */
  predicate Kept(c: char) { Text.IsWord(c) || Text.IsSpace(c) || c == '-' }

  /** Characters whose runs `.replace(/[\s_]+/g, '-')` turns into one hyphen. */
  predicate IsSeparator(c: char) { Text.IsSpace(c) || c == '_' }

  /** `.replace(/[^\w\s-]/g, '')`: the kept characters of `s`, in order. */
  function RemoveUnkept(s: string): (r: string)
    ensures r == Lists.Filter(s, Kept)
    ensures forall i :: 0 <= i < |r| ==> Kept(r[i])
    ensures (forall i :: 0 <= i < |s| ==> !Text.IsUpper(s[i])) ==> forall i :: 0 <= i < |r| ==> !Text.IsUpper(r[i])
    ensures (forall i :: 0 <= i < |s| ==> Kept(s[i])) ==> r == s
  {
    if s == [] then []
    else if Kept(s[0]) then [s[0]] + RemoveUnkept(s[1..])
    else RemoveUnkept(s[1..])
  }

  /** A character outside `[\w\s-]` is removed wherever it stands, and the text on both sides is kept. */
  lemma RemoveUnkeptDrops(a: string, c: char, b: string)
    requires !Kept(c)
    ensures RemoveUnkept(a + [c] + b) == RemoveUnkept(a) + RemoveUnkept(b)
  {
    Lists.FilterDropsRejected(a, c, b, Kept);
  }

  function DropSeparators(s: string): (r: string)
    ensures |r| <= |s| && r == s[|s| - |r|..]
    ensures r == [] || !IsSeparator(r[0])
  {
    if s != [] && IsSeparator(s[0]) then DropSeparators(s[1..]) else s
  }

  /** Each maximal run of separators becomes a single hyphen; everything else is kept. */
  function CollapseSeparators(s: string): (r: string)
    ensures forall i :: 0 <= i < |r| ==> !IsSeparator(r[i])
    ensures (forall i :: 0 <= i < |s| ==> Kept(s[i]) && !Text.IsUpper(s[i])) ==>
      forall i :: 0 <= i < |r| ==> IsSlugChar(r[i])
    ensures (forall i :: 0 <= i < |s| ==> !IsSeparator(s[i])) ==> r == s
    decreases |s|
  {
    if s == [] then []
    else if IsSeparator(s[0]) then "-" + CollapseSeparators(DropSeparators(s))
    else [s[0]] + CollapseSeparators(s[1..])
  }

  /** A leading run of separators is dropped whole, up to the first other character. */
  lemma {:induction false} DropRun(run: string, q: string)
    requires forall i :: 0 <= i < |run| ==> IsSeparator(run[i])
    requires q == [] || !IsSeparator(q[0])
    ensures DropSeparators(run + q) == q
    decreases |run|
  {
    if run == [] {
      assert run + q == q;
    } else {
      assert (run + q)[0] == run[0];
      assert (run + q)[1..] == run[1..] + q;
      DropRun(run[1..], q);
    }
  }

  /**
   * A maximal run of separators becomes exactly one hyphen: the text before it is
   * kept as it is and the text after it is collapsed in turn.
   */
  lemma {:induction false} CollapseRun(p: string, run: string, q: string)
    requires forall i :: 0 <= i < |p| ==> !IsSeparator(p[i])
    requires run != [] && forall i :: 0 <= i < |run| ==> IsSeparator(run[i])
    requires q == [] || !IsSeparator(q[0])
    ensures CollapseSeparators(p + run + q) == p + "-" + CollapseSeparators(q)
    decreases |p|
  {
    if p == [] {
      assert p + run + q == run + q;
      CollapseLead(run, q);
    } else {
      CollapseRun(p[1..], run, q);
      SplitHead(p, run, q);
      SplitHead(p, "-", CollapseSeparators(q));
      CollapseHead(p[0], p[1..] + run + q);
    }
  }

  lemma SplitHead(p: string, a: string, b: string)
    requires p != []
    ensures p + a + b == [p[0]] + (p[1..] + a + b)
  {
  }

  lemma CollapseHead(c: char, t: string)
    requires !IsSeparator(c)
    ensures CollapseSeparators([c] + t) == [c] + CollapseSeparators(t)
  {
    assert ([c] + t)[1..] == t;
  }

  lemma CollapseLead(run: string, q: string)
    requires run != [] && forall i :: 0 <= i < |run| ==> IsSeparator(run[i])
    requires q == [] || !IsSeparator(q[0])
    ensures CollapseSeparators(run + q) == "-" + CollapseSeparators(q)
  {
    assert (run + q)[0] == run[0];
    DropRun(run, q);
  }

  function StripLeadingHyphens(s: string): (r: string)
    ensures |r| <= |s| && r == s[|s| - |r|..]
    ensures r == [] || r[0] != '-'
    ensures s == [] || s[0] != '-' ==> r == s
    ensures (forall i :: 0 <= i < |s| ==> IsSlugChar(s[i])) ==> forall i :: 0 <= i < |r| ==> IsSlugChar(r[i])
  {
    if s != [] && s[0] == '-' then StripLeadingHyphens(s[1..]) else s
  }

  function StripTrailingHyphens(s: string): (r: string)
    ensures |r| <= |s| && r == s[..|r|]
    ensures r == [] || r[|r| - 1] != '-'
    ensures s == [] || s[|s| - 1] != '-' ==> r == s
    ensures (forall i :: 0 <= i < |s| ==> IsSlugChar(s[i])) ==> forall i :: 0 <= i < |r| ==> IsSlugChar(r[i])
  {
    if s != [] && s[|s| - 1] == '-' then StripTrailingHyphens(s[..|s| - 1]) else s
  }

  /** `.replace(/^-+|-+$/g, '')`. */
  function StripHyphens(s: string): (r: string)
    ensures r == [] || (r[0] != '-' && r[|r| - 1] != '-')
    ensures (forall i :: 0 <= i < |s| ==> IsSlugChar(s[i])) ==> forall i :: 0 <= i < |r| ==> IsSlugChar(r[i])
    ensures s == [] || (s[0] != '-' && s[|s| - 1] != '-') ==> r == s
  {
    StripTrailingHyphens(StripLeadingHyphens(s))
  }

  /** `slugify(text)`: lower-case, trim, drop other characters, hyphenate separators, strip hyphens. */
  function Slugify(text: string): (r: string)
    ensures IsSlug(r)
  {
    TrimmedNoUpper(text);
    StripHyphens(CollapseSeparators(RemoveUnkept(Text.Trim(Text.Lower(text)))))
  }

  /**
   * On text that is already lower-case, has no surrounding white space and holds
   * only kept characters, `slugify` is the separator collapse followed by the
   * hyphen strip.
   */
  lemma SlugifyCleanText(s: string)
    requires forall i :: 0 <= i < |s| ==> Kept(s[i]) && !Text.IsUpper(s[i])
    requires s == [] || (!Text.IsSpace(s[0]) && !Text.IsSpace(s[|s| - 1]))
    ensures Slugify(s) == StripHyphens(CollapseSeparators(s))
  {
    Text.LowerNoUpper(s);
    Text.TrimIdentity(s);
    KeptUnchanged(s);
  }

  lemma KeptUnchanged(s: string)
    requires forall i :: 0 <= i < |s| ==> Kept(s[i])
    ensures RemoveUnkept(s) == s
  {
  }

  /** Two slugs joined by a run of white space or underscores become one slug joined by a single hyphen. */
  lemma {:induction false} SlugifyJoinsWords(p: string, run: string, q: string)
    requires IsSlug(p) && p != [] && IsSlug(q) && q != []
    requires run != [] && forall i :: 0 <= i < |run| ==> IsSeparator(run[i])
    ensures Slugify(p + run + q) == p + "-" + q
  {
    JoinedIsClean(p, run, q);
    SlugifyCleanText(p + run + q);
    CollapseJoin(p, run, q);
    EndsOfJoin(p, "-", q);
  }

  lemma CollapseJoin(p: string, run: string, q: string)
    requires IsSlug(p) && IsSlug(q)
    requires run != [] && forall i :: 0 <= i < |run| ==> IsSeparator(run[i])
    ensures CollapseSeparators(p + run + q) == p + "-" + q
  {
    SlugHasNoSeparator(p);
    SlugHasNoSeparator(q);
    CollapseRun(p, run, q);
  }

  lemma SlugHasNoSeparator(s: string)
    requires IsSlug(s)
    ensures forall i :: 0 <= i < |s| ==> !IsSeparator(s[i])
  {
    forall i | 0 <= i < |s| ensures !IsSeparator(s[i]) {
      SlugCharKept(s[i]);
    }
  }

  lemma EndsOfJoin(p: string, m: string, q: string)
    requires p != [] && q != []
    ensures var s := p + m + q; s[0] == p[0] && s[|s| - 1] == q[|q| - 1]
  {
  }

  lemma JoinedIsClean(p: string, run: string, q: string)
    requires IsSlug(p) && p != [] && IsSlug(q) && q != []
    requires forall i :: 0 <= i < |run| ==> IsSeparator(run[i])
    ensures var s := p + run + q;
      && (forall i :: 0 <= i < |s| ==> Kept(s[i]) && !Text.IsUpper(s[i]))
      && !Text.IsSpace(s[0]) && !Text.IsSpace(s[|s| - 1])
  {
    var s := p + run + q;
    forall i | 0 <= i < |s| ensures Kept(s[i]) && !Text.IsUpper(s[i]) {
      if i < |p| {
        assert s[i] == p[i];
      } else if i < |p| + |run| {
        assert s[i] == run[i - |p|];
      } else {
        assert s[i] == q[i - |p| - |run|];
      }
    }
    EndsOfJoin(p, run, q);
  }

  lemma TrimmedNoUpper(text: string)
    ensures var t := Text.Trim(Text.Lower(text)); forall i :: 0 <= i < |t| ==> !Text.IsUpper(t[i])
  {
    Text.TrimSpec(Text.Lower(text));
  }

  /** Each step of `slugify` leaves a slug as it is. */
  lemma {:induction false} SlugFixpoint(s: string)
    requires IsSlug(s)
    ensures Slugify(s) == s
  {
    Text.LowerNoUpper(s);
    Text.TrimIdentity(s);
    assert Text.Trim(Text.Lower(s)) == s;
    assert forall i :: 0 <= i < |s| ==> Kept(s[i]) && !IsSeparator(s[i]) by {
      forall i | 0 <= i < |s| ensures Kept(s[i]) && !IsSeparator(s[i]) {
        SlugCharKept(s[i]);
      }
    }
    assert RemoveUnkept(s) == s;
    assert CollapseSeparators(s) == s;
    assert StripHyphens(s) == s;
  }

  lemma SlugCharKept(c: char)
    requires IsSlugChar(c)
    ensures Kept(c) && !IsSeparator(c)
  {
  }

  /** `slugify` is idempotent. */
  lemma SlugifyIdempotent(text: string)
    ensures Slugify(Slugify(text)) == Slugify(text)
  {
    SlugFixpoint(Slugify(text));
  }

  /** The create-event form: the name and slug fields. */
  class EventForm {
    var name: string
    var slug: string

    constructor ()
      ensures name == "" && slug == ""
    {
      name := "";
      slug := "";
    }

    /** The slug still follows the name: it is empty or equals the slug of the name. */
    predicate Following()
      reads this
    {
      slug == "" || slug == Slugify(name)
    }

    /** `handleNameChange`: the slug follows the new name iff it followed the previous one. */
    method HandleNameChange(newName: string)
      modifies this
      ensures name == newName
      ensures old(Following()) ==> slug == Slugify(newName)
      ensures !old(Following()) ==> slug == old(slug)
      ensures old(Following()) ==> Following()
    {
      var previous := name;
      name := newName;
      if slug == "" || slug == Slugify(previous) {
        slug := Slugify(newName);
      }
    }

    /** `finalSlug` in `handleCreate`: the typed slug if any, else the slug of the name. */
    function FinalSlug(): (r: string)
      reads this
      ensures slug != "" ==> r == slug
      ensures slug == "" ==> r == Slugify(name) && IsSlug(r)
      ensures Following() ==> r == Slugify(name)
    {
      if slug != "" then slug else Slugify(name)
    }

    /** A successful creation clears both fields. */
    method CreateSucceeded()
      modifies this
      ensures name == "" && slug == ""
      ensures Following()
    {
      name := "";
      slug := "";
    }
  }
}
