/** The cleaning done by data/generate_dataset.py: URLs of the positive and negative blacklist
    categories are gathered, URLs with a disallowed character dropped, the rest lowercased and
    deduplicated, URLs listed as both moved out of the negatives, and both lists shuffled. Reading
    the category files is abstracted as `domains` (the split contents of `<category>/domains`) and
    Python's `str.lower` as the uninterpreted `lower`. */
module DatasetGeneration {
  import opened Wrappers
  import opened Sequences

  /** `nonallowed_characters`: _ & # ; / u-umlaut , o-umlaut " dotless-i. */
  const NonAllowedCharacters: seq<char> :=
    ['_', '&', '#', ';', '/', '\U{00FC}', ',', '\U{00F6}', '"', '\U{0131}']

  /** `list(set(found) - set(positive_categories))`, the negative categories (as a set). */
  function NegativeCategories(found: seq<string>, positiveCategories: seq<string>): (r: set<string>)
    ensures forall c :: c in r <==> c in found && c !in positiveCategories
  {
    ToSet(found) - ToSet(positiveCategories)
  }

  /** The URLs of the categories `cats`, in order. */
  function Flatten(cats: seq<string>, domains: string -> seq<string>): seq<string>
  {
    if cats == [] then [] else Flatten(cats[..|cats| - 1], domains) + domains(cats[|cats| - 1])
  }

  /** What the reading loop accumulates: a category's URLs go to the positives when it is a
      positive category and to the negatives otherwise. */
  function Gather(cats: seq<string>, positiveCategories: seq<string>, domains: string -> seq<string>)
    : (r: (seq<string>, seq<string>))
    ensures multiset(r.0) + multiset(r.1) == multiset(Flatten(cats, domains))
  {
    if cats == [] then ([], [])
    else
      var (p, n) := Gather(cats[..|cats| - 1], positiveCategories, domains);
      var c := cats[|cats| - 1];
      if c in positiveCategories then (p + domains(c), n) else (p, n + domains(c))
  }

  lemma {:induction false} GatherPositiveOnly(cats: seq<string>, positiveCategories: seq<string>, domains: string -> seq<string>)
    requires forall c :: c in cats ==> c in positiveCategories
    ensures Gather(cats, positiveCategories, domains) == (Flatten(cats, domains), [])
  {
    if cats != [] {
      GatherPositiveOnly(cats[..|cats| - 1], positiveCategories, domains);
    }
  }

  lemma {:induction false} GatherAppendNegatives(pos: seq<string>, neg: seq<string>, domains: string -> seq<string>)
    requires forall c :: c in neg ==> c !in pos
    ensures Gather(pos + neg, pos, domains) == (Flatten(pos, domains), Flatten(neg, domains))
  {
    if neg == [] {
      assert pos + neg == pos;
      GatherPositiveOnly(pos, pos, domains);
    } else {
      var init := neg[..|neg| - 1];
      GatherAppendNegatives(pos, init, domains);
      assert (pos + neg)[..|pos + neg| - 1] == pos + init;
    }
  }

  /** With distinct categories, the positives are exactly the URLs of the positive categories and
      the negatives exactly those of the negative categories. */
  lemma GatherSplits(pos: seq<string>, neg: seq<string>, domains: string -> seq<string>)
    requires NoDuplicates(pos + neg)
    ensures Gather(pos + neg, pos, domains) == (Flatten(pos, domains), Flatten(neg, domains))
  {
    forall c | c in neg ensures c !in pos {
      var j :| 0 <= j < |neg| && neg[j] == c;
      forall i | 0 <= i < |pos| ensures pos[i] != c {
        assert (pos + neg)[i] == pos[i] && (pos + neg)[|pos| + j] == c;
      }
    }
    GatherAppendNegatives(pos, neg, domains);
  }

  /** The reading loop over `positive_categories + negative_categories`. */
  method GatherUrls(cats: seq<string>, positiveCategories: seq<string>, domains: string -> seq<string>)
    returns (positives: seq<string>, negatives: seq<string>)
    ensures (positives, negatives) == Gather(cats, positiveCategories, domains)
  {
    positives, negatives := [], [];
    for i := 0 to |cats|
      invariant (positives, negatives) == Gather(cats[..i], positiveCategories, domains)
    {
      var cat := cats[i];
      assert cats[..i + 1][..i] == cats[..i];
      var urls := domains(cat);
      if cat in positiveCategories {
        positives := positives + urls;
      } else {
        negatives := negatives + urls;
      }
    }
    assert cats[..|cats|] == cats;
  }

  /** A URL is kept when it contains none of the disallowed characters. */
  predicate Allowed(url: string)
    ensures Allowed(url) <==> forall c :: c in NonAllowedCharacters ==> c !in url
  {
    forall k :: 0 <= k < |NonAllowedCharacters| ==> NonAllowedCharacters[k] !in url
  }

  /** The inner loop over `nonallowed_characters` (it does not stop at the first hit). */
  method UrlAllowed(url: string) returns (allowed: bool)
    ensures allowed <==> forall k :: 0 <= k < |NonAllowedCharacters| ==> NonAllowedCharacters[k] !in url
  {
    allowed := true;
    for k := 0 to |NonAllowedCharacters|
      invariant allowed <==> forall k' :: 0 <= k' < k ==> NonAllowedCharacters[k'] !in url
    {
      var c := NonAllowedCharacters[k];
      if c in url {
        allowed := false;
      }
    }
  }

  /** One of the two character-filter loops: the allowed URLs, in their original order. */
  method RemoveDisallowed(urls: seq<string>) returns (kept: seq<string>)
    ensures kept == Filter(urls, Allowed)
  {
    kept := [];
    for i := 0 to |urls|
      invariant kept == Filter(urls[..i], Allowed)
    {
      var url := urls[i];
      assert urls[..i + 1] == urls[..i] + [url];
      FilterSnoc(urls[..i], url, Allowed);
      var allowed := UrlAllowed(url);
      if allowed {
        kept := kept + [url];
      }
    }
    assert urls[..|urls|] == urls;
  }

  /** The character filter keeps every occurrence of an allowed URL and nothing else. */
  lemma RemoveDisallowedExact(urls: seq<string>, u: string)
    ensures multiset(Filter(urls, Allowed))[u] == if Allowed(u) then multiset(urls)[u] else 0
    ensures u in Filter(urls, Allowed) <==> u in urls && Allowed(u)
  {
    FilterCount(urls, Allowed, u);
    FilterMembership(urls, Allowed, u);
  }

  /** A list after filtering out disallowed URLs, lowercasing and taking the `set`. */
  function Clean(urls: seq<string>, lower: string -> string): (r: set<string>)
    ensures |r| <= |urls|
  {
    DistinctIffSetSize(MapSeq(Filter(urls, Allowed), lower));
    ToSet(MapSeq(Filter(urls, Allowed), lower))
  }

  /** Filtering comes before lowercasing: the cleaned URLs are exactly the lowercase images of
      allowed URLs. */
  lemma CleanMembership(urls: seq<string>, lower: string -> string, u: string)
    ensures u in Clean(urls, lower) <==> exists v :: v in urls && Allowed(v) && lower(v) == u
  {
    var kept := Filter(urls, Allowed);
    var lowered := MapSeq(kept, lower);
    if u in Clean(urls, lower) {
      var i :| 0 <= i < |lowered| && lowered[i] == u;
      RemoveDisallowedExact(urls, kept[i]);
      assert kept[i] in urls && Allowed(kept[i]) && lower(kept[i]) == u;
    }
    if exists v :: v in urls && Allowed(v) && lower(v) == u {
      var v :| v in urls && Allowed(v) && lower(v) == u;
      RemoveDisallowedExact(urls, v);
      var i :| 0 <= i < |kept| && kept[i] == v;
      assert lowered[i] == u;
    }
  }

  /** The loop over the positives: every positive found among the negatives is removed from them and
      counted. Only the negatives shrink. */
  method RemoveCrossDuplicates(positives: set<string>, negatives: set<string>)
    returns (remaining: set<string>, count: nat)
    ensures remaining == negatives - positives
    ensures count == |positives * negatives|
  {
    remaining, count := negatives, 0;
    var todo := positives;
    ghost var done: set<string> := {};
    while todo != {}
      invariant done + todo == positives && done !! todo
      invariant remaining == negatives - done
      invariant count == |done * negatives|
      decreases |todo|
    {
      var x :| x in todo;
      if x in remaining {
        assert (done + {x}) * negatives == done * negatives + {x};
        remaining := remaining - {x};
        count := count + 1;
      } else {
        assert (done + {x}) * negatives == done * negatives;
      }
      todo := todo - {x};
      done := done + {x};
    }
  }

  /** `list(s)` followed by `random.shuffle`: the elements of `s`, once each, in an arbitrary order. */
  method ToShuffledList(s: set<string>) returns (r: seq<string>)
    ensures ToSet(r) == s
    ensures NoDuplicates(r)
    ensures |r| == |s|
  {
    r := [];
    var rest := s;
    while rest != {}
      invariant rest <= s
      invariant ToSet(r) == s - rest
      invariant NoDuplicates(r)
      decreases |rest|
    {
      var x :| x in rest;
      assert x !in ToSet(r);
      assert ToSet(r + [x]) == ToSet(r) + {x};
      r := r + [x];
      rest := rest - {x};
    }
    DistinctIffSetSize(r);
  }

  datatype Cleaned = Cleaned(positives: seq<string>, negatives: seq<string>, crossDuplicates: nat)

  /** The assertion that no category is repeated fails. */
  datatype DatasetError = RepeatedCategory

  /** `generate_dataset` without the file system: fails exactly when the assertion on the
      categories does, that is when a category is repeated; otherwise the positives are the cleaned positive
      URLs, the negatives the cleaned negative URLs that are not also positives, both without
      repeats, and the assertion that no URL is in both lists holds. */
  method GenerateDataset(positiveCategories: seq<string>, negativeCategories: seq<string>,
                         domains: string -> seq<string>, lower: string -> string)
    returns (r: Result<Cleaned, DatasetError>)
    ensures r.Failure? <==> !NoDuplicates(positiveCategories + negativeCategories)
    ensures r.Success? ==>
      var pos := Clean(Flatten(positiveCategories, domains), lower);
      var neg := Clean(Flatten(negativeCategories, domains), lower);
      && ToSet(r.value.positives) == pos
      && ToSet(r.value.negatives) == neg - pos
      && r.value.crossDuplicates == |pos * neg|
      && NoDuplicates(r.value.positives) && NoDuplicates(r.value.negatives)
      && |ToSet(r.value.positives + r.value.negatives)| == |r.value.positives| + |r.value.negatives|
  {
    var categories := positiveCategories + negativeCategories;
    DistinctIffSetSize(categories);
    if |ToSet(categories)| != |positiveCategories| + |negativeCategories| {
      return Failure(RepeatedCategory);
    }

    var positives, negatives := GatherUrls(categories, positiveCategories, domains);
    GatherSplits(positiveCategories, negativeCategories, domains);

    positives := RemoveDisallowed(positives);
    negatives := RemoveDisallowed(negatives);

    var lowerPositives := MapSeq(positives, lower);
    var lowerNegatives := MapSeq(negatives, lower);

    var positiveSet := ToSet(lowerPositives);
    var negativeSet := ToSet(lowerNegatives);

    var remaining, count := RemoveCrossDuplicates(positiveSet, negativeSet);

    var positiveList := ToShuffledList(positiveSet);
    var negativeList := ToShuffledList(remaining);

    ConcatNoDuplicates(positiveList, negativeList);
    DistinctIffSetSize(positiveList + negativeList);
    assert |ToSet(positiveList + negativeList)| == |positiveList| + |negativeList|;
    return Success(Cleaned(positiveList, negativeList, count));
  }
}
