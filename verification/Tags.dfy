/**
 The vibe-tag vocabulary: one canonical spelling per concept, and the SQL filter
 that matches stored spellings against it.
 */
module Tags {
  import opened Prelude
  import opened Lists
  import opened Text

  function LowerChar(c: char): char {
    if 'A' <= c <= 'Z' then c - 'A' + 'a' else c
  }

  /** ASCII `lower()`. */
  function Lower(s: string): string {
    if s == "" then "" else [LowerChar(s[0])] + Lower(s[1..])
  }

  predicate IsSeparator(c: char) {
    IsSpace(c) || c == '-' || c == '_' || c == '.' || c == '/'
  }

  predicate IsAllowed(c: char) {
    'a' <= c <= 'z' || '0' <= c <= '9' || c == '+'
  }

  /** `re.sub("[...]+", "", s)` for the characters `p` accepts. */
  function Remove(s: string, p: char -> bool): string {
    if s == "" then "" else (if p(s[0]) then "" else [s[0]]) + Remove(s[1..], p)
  }

  function LStripHash(s: string): string {
    if s != "" && s[0] == '#' then LStripHash(s[1..]) else s
  }

  function Disallowed(): char -> bool {
    c => !IsAllowed(c)
  }

  function Separator(): char -> bool {
    c => IsSeparator(c)
  }

  /** `canonical_tag` */
  function CanonicalTag(tag: string): Option<string> {
    var cleaned := Remove(Remove(Lower(LStripHash(Strip(tag))), Separator()), Disallowed());
    if cleaned == "" then None else Some("#" + cleaned)
  }

  /** The SQL side: `regexp_replace(lower(ltrim(element, '#')), '[^a-z0-9+]', '', 'g')`. */
  function SqlNormalized(element: string): string {
    Remove(Lower(LStripHash(element)), Disallowed())
  }

  /** `resolve_vibe_tag` over a synonym table. */
  function Resolve(synonyms: map<string, string>, tag: string): Option<string> {
    var canonical := CanonicalTag(tag);
    if canonical.Some? && canonical.value in synonyms then Some(synonyms[canonical.value]) else canonical
  }

  /** `stored_forms_for`: every canonical spelling that resolves to the tag, without its prefix. */
  function StoredForms(synonyms: map<string, string>, wanted: string): set<string> {
    var resolved := Resolve(synonyms, wanted);
    if resolved.None? then {} else
      {LStripHash(resolved.value)}
          + (set alias | alias in synonyms && synonyms[alias] == resolved.value :: LStripHash(alias))
  }

  /** `_canonical_tag_filter`: some stored tag, normalised in SQL, is one of the forms. */
  predicate TagFilter(synonyms: map<string, string>, wanted: string, stored: seq<string>) {
    exists t :: t in stored && SqlNormalized(t) in StoredForms(synonyms, wanted)
  }

  /** Aliases and targets are canonical tags, and no target is itself an alias. */
  ghost predicate Synonyms(synonyms: map<string, string>) {
    forall alias :: alias in synonyms ==>
      IsCanonical(alias) && IsCanonical(synonyms[alias]) && synonyms[alias] !in synonyms
  }

  /** One hash, then at least one allowed character and nothing else. */
  predicate IsCanonical(tag: string) {
    |tag| > 1 && tag[0] == '#' && forall i :: 1 <= i < |tag| ==> IsAllowed(tag[i])
  }

  lemma {:induction false} RemoveKeepsOnlyAllowed(s: string)
    ensures forall i :: 0 <= i < |Remove(s, Disallowed())| ==> IsAllowed(Remove(s, Disallowed())[i])
  {
    if s != "" {
      RemoveKeepsOnlyAllowed(s[1..]);
    }
  }

  /** Separators are disallowed anyway, so taking them out first changes nothing. */
  lemma {:induction false} SeparatorsFirst(s: string)
    ensures Remove(Remove(s, Separator()), Disallowed()) == Remove(s, Disallowed())
  {
    if s != "" {
      var c, rest := s[0], Remove(s[1..], Separator());
      SeparatorsFirst(s[1..]);
      assert Separator()(c) == IsSeparator(c) && (IsSeparator(c) ==> Disallowed()(c));
      assert Remove(s, Disallowed()) == (if Disallowed()(c) then "" else [c]) + Remove(s[1..], Disallowed());
      if IsSeparator(c) {
        assert Remove(s, Separator()) == rest;
      } else {
        assert Remove(s, Separator()) == [c] + rest;
        assert ([c] + rest)[1..] == rest;
      }
    }
  }

  lemma {:induction false} HashPrefixIsDropped(s: string)
    ensures Remove(Lower(LStripHash(s)), Disallowed()) == Remove(Lower(s), Disallowed())
  {
    if s != "" && s[0] == '#' {
      HashPrefixIsDropped(s[1..]);
      assert ([LowerChar(s[0])] + Lower(s[1..]))[1..] == Lower(s[1..]);
    }
  }

  lemma {:induction false} RemoveAppend(a: string, b: string)
    ensures Remove(Lower(a + b), Disallowed()) == Remove(Lower(a), Disallowed()) + Remove(Lower(b), Disallowed())
  {
    if a == "" {
      assert a + b == b;
    } else {
      assert (a + b)[1..] == a[1..] + b;
      RemoveAppend(a[1..], b);
      assert ([LowerChar(a[0])] + Lower(a[1..]))[1..] == Lower(a[1..]);
      assert ([LowerChar(a[0])] + Lower(a[1..] + b))[1..] == Lower(a[1..] + b);
    }
  }

  lemma {:induction false} RemoveOne(c: char)
    ensures Remove(Lower([c]), Disallowed()) == if IsAllowed(LowerChar(c)) then [LowerChar(c)] else ""
  {
    assert Lower([c]) == [LowerChar(c)];
    assert [LowerChar(c)][1..] == "";
  }

  lemma {:induction false} LStripIsDropped(s: string)
    ensures Remove(Lower(LStrip(s)), Disallowed()) == Remove(Lower(s), Disallowed())
  {
    if s != "" && IsSpace(s[0]) {
      LStripIsDropped(s[1..]);
      assert s == [s[0]] + s[1..];
      RemoveAppend([s[0]], s[1..]);
      RemoveOne(s[0]);
    }
  }

  lemma {:induction false} RStripIsDropped(s: string)
    ensures Remove(Lower(RStrip(s)), Disallowed()) == Remove(Lower(s), Disallowed())
  {
    if s != "" && IsSpace(s[|s| - 1]) {
      var init := s[..|s| - 1];
      RStripIsDropped(init);
      assert s == init + [s[|s| - 1]];
      RemoveAppend(init, [s[|s| - 1]]);
      RemoveOne(s[|s| - 1]);
    }
  }

  /** Python and SQL clean a tag to the same characters, whatever its hashes, spaces and case. */
  lemma {:induction false} BothSidesNormalizeAlike(tag: string)
    ensures CanonicalTag(tag) == if SqlNormalized(tag) == "" then None else Some("#" + SqlNormalized(tag))
    ensures CanonicalTag(tag).Some? ==> IsCanonical(CanonicalTag(tag).value)
  {
    SeparatorsFirst(Lower(LStripHash(Strip(tag))));
    HashPrefixIsDropped(Strip(tag));
    RStripIsDropped(LStrip(tag));
    LStripIsDropped(tag);
    HashPrefixIsDropped(tag);
    RemoveKeepsOnlyAllowed(Lower(LStripHash(tag)));
  }

  lemma {:induction false} CanonicalForm(tag: string)
    requires IsCanonical(tag)
    ensures LStripHash(tag) == tag[1..] && tag == "#" + tag[1..]
  {
    assert tag == [tag[0]] + tag[1..];
  }

  lemma {:induction false} AllowedIsFixed(s: string)
    requires forall i :: 0 <= i < |s| ==> IsAllowed(s[i])
    ensures Remove(Lower(s), Disallowed()) == s
  {
    if s != "" {
      assert forall i :: 0 <= i < |s[1..]| ==> s[1..][i] == s[i + 1];
      AllowedIsFixed(s[1..]);
      assert ([LowerChar(s[0])] + Lower(s[1..]))[1..] == Lower(s[1..]);
    }
  }

  /** Canonicalising is idempotent: a canonical tag is its own canonical form. */
  lemma {:induction false} CanonicalIsFixed(tag: string)
    requires IsCanonical(tag)
    ensures CanonicalTag(tag) == Some(tag)
  {
    BothSidesNormalizeAlike(tag);
    CanonicalForm(tag);
    assert forall i :: 0 <= i < |tag[1..]| ==> tag[1..][i] == tag[i + 1];
    AllowedIsFixed(tag[1..]);
  }

  lemma {:induction false} ResolvedIsCanonical(synonyms: map<string, string>, tag: string)
    requires Synonyms(synonyms)
    ensures Resolve(synonyms, tag).Some? ==>
              var key := Resolve(synonyms, tag).value;
              IsCanonical(key) && key !in synonyms && Resolve(synonyms, key) == Some(key)
  {
    BothSidesNormalizeAlike(tag);
    if Resolve(synonyms, tag).Some? {
      CanonicalIsFixed(Resolve(synonyms, tag).value);
    }
  }

  lemma {:induction false} StoredFormExactly(synonyms: map<string, string>, wanted: string, t: string)
    requires Synonyms(synonyms)
    ensures SqlNormalized(t) in StoredForms(synonyms, wanted) <==>
            Resolve(synonyms, wanted).Some? && Resolve(synonyms, t) == Resolve(synonyms, wanted)
  {
    var resolved := Resolve(synonyms, wanted);
    if resolved.Some? {
      ResolvedIsCanonical(synonyms, wanted);
      BothSidesNormalizeAlike(t);
      CanonicalForm(resolved.value);
      forall alias | alias in synonyms
        ensures LStripHash(alias) == alias[1..] && alias == "#" + alias[1..]
      {
        CanonicalForm(alias);
      }
      var n := SqlNormalized(t);
      assert ("#" + n)[1..] == n;
      if n != "" && Resolve(synonyms, t) == resolved && "#" + n in synonyms {
        assert LStripHash("#" + n) == n;
      }
    }
  }

  /**
   The tag filter is true exactly when some stored tag resolves to the wanted
   vibe; a wanted tag that is no tag at all matches nothing.
   */
  lemma {:induction false} FilterIsResolution(synonyms: map<string, string>, wanted: string, stored: seq<string>)
    requires Synonyms(synonyms)
    ensures TagFilter(synonyms, wanted, stored) <==>
            Resolve(synonyms, wanted).Some? &&
            exists t :: t in stored && Resolve(synonyms, t) == Resolve(synonyms, wanted)
  {
    forall t
      ensures SqlNormalized(t) in StoredForms(synonyms, wanted) <==>
              Resolve(synonyms, wanted).Some? && Resolve(synonyms, t) == Resolve(synonyms, wanted)
    {
      StoredFormExactly(synonyms, wanted, t);
    }
  }

  /** The vibe a raw tag stands for, if the vocabulary has it. */
  function Vibe(synonyms: map<string, string>, vocabulary: set<string>, tag: string): Option<string> {
    var resolved := Resolve(synonyms, tag);
    if resolved.Some? && resolved.value in vocabulary then resolved else None
  }

  function VibeOf(synonyms: map<string, string>, vocabulary: set<string>): string -> Option<string> {
    tag => Vibe(synonyms, vocabulary, tag)
  }

  /** Vocabulary entries are spelled canonically and are nobody's alias. */
  ghost predicate ProperVocabulary(synonyms: map<string, string>, vocabulary: set<string>) {
    forall v :: v in vocabulary ==> IsCanonical(v) && v !in synonyms
  }

  /** `canonical_vibe_tags`: the vibes the tags stand for, once each, in order of first mention. */
  method CollectVibes(synonyms: map<string, string>, vocabulary: set<string>, tags: seq<string>)
    returns (kept: seq<string>)
    ensures kept == Dedupe(FilterMap(tags, VibeOf(synonyms, vocabulary)))
  {
    kept := [];
    var vibe := VibeOf(synonyms, vocabulary);
    for i := 0 to |tags|
      invariant kept == Dedupe(FilterMap(tags[..i], vibe))
    {
      assert tags[..i + 1] == tags[..i] + [tags[i]];
      FilterMapAppend(tags[..i], tags[i], vibe);
      var canonical := Resolve(synonyms, tags[i]);
      if canonical == None || canonical.value !in vocabulary { continue; }
      DedupeAppend(FilterMap(tags[..i], vibe), canonical.value);
      DedupeSpec(FilterMap(tags[..i], vibe));
      if canonical.value !in kept {
        kept := kept + [canonical.value];
      }
    }
    assert tags[..|tags|] == tags;
  }

  /** Stored vibes are distinct vocabulary entries, and canonicalising them again changes nothing. */
  lemma {:induction false} VibeTagsAreFixed(synonyms: map<string, string>, vocabulary: set<string>, tags: seq<string>)
    requires ProperVocabulary(synonyms, vocabulary)
    ensures var kept := Dedupe(FilterMap(tags, VibeOf(synonyms, vocabulary)));
      && (forall v :: v in kept <==> exists t :: t in tags && Vibe(synonyms, vocabulary, t) == Some(v))
      && NoDuplicates(kept)
      && (forall v :: v in kept ==> v in vocabulary)
      && Dedupe(FilterMap(kept, VibeOf(synonyms, vocabulary))) == kept
  {
    var vibe := VibeOf(synonyms, vocabulary);
    var found := FilterMap(tags, vibe);
    var kept := Dedupe(found);
    DedupeSpec(found);
    FilterMapMembers(tags, vibe);
    assert forall t :: vibe(t) == Vibe(synonyms, vocabulary, t);
    forall v | v in kept
      ensures vibe(v) == Some(v)
    {
      CanonicalIsFixed(v);
    }
    FilterMapFixed(kept, vibe);
    DedupeOfDistinct(kept);
  }
}
