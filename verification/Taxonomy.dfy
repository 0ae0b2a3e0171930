/** The frozen source-category table: raw labels into canonical categories. */
module Taxonomy {
  import opened Prelude
  import opened Text
  import opened Tags
  import Listings

  datatype Group = Group(category: string, words: seq<string>)

  datatype Alias = Alias(word: string, category: string)

  const CANONICAL: seq<string> := [
    "Music", "Nightlife", "Comedy", "Arts & Theatre", "Film", "Festival", "Food",
    "Sports", "Fitness", "Wellness", "Outdoors", "Social", "Business", "Miscellaneous"]

  const MUSIC: Group := Group("Music", [
    "rock", "alternative", "alternative rock", "pop", "jazz", "r&b", "rnb", "hip-hop", "hip hop", "hip-hop/rap", "rap",
    "country", "folk", "reggae", "reggaeton", "metal", "classical", "blues", "electronic", "dance/electronic", "house",
    "progressive house", "tech house", "deep house", "techno", "trance", "disco", "afrobeats", "drum and bass",
    "dubstep",
    "ambient", "dj", "latin", "world", "soul", "funk", "indie", "punk", "concert", "concerts", "live music"])

  const ARTS: Group := Group("Arts & Theatre", [
    "arts", "art", "theatre", "theater", "musical", "ballet", "dance", "performance art", "gallery", "exhibition",
    "exhibitions", "reception", "opening reception", "circus", "circus & specialty acts"])

  const SPORTS: Group := Group("Sports", [
    "baseball", "basketball", "football", "hockey", "soccer", "tennis", "golf", "wrestling", "boxing"])

  const FILM: Group := Group("Film", ["movie", "movies", "cinema", "screening"])

  const SOCIAL: Group := Group("Social", ["community", "meetup"])

  const BUSINESS: Group := Group("Business", ["tech", "startup", "networking", "conference"])

  const FESTIVAL: Group := Group("Festival", ["fair", "street fair", "festival", "fairs & festivals"])

  const GROUPS: seq<Group> := [MUSIC, ARTS, SPORTS, FILM, SOCIAL, BUSINESS, FESTIVAL]

  /** A dictionary built entry by entry: the last one for a word wins. */
  function Lookup(entries: seq<Alias>, word: string): Option<string> {
    if entries == [] then None
    else if entries[|entries| - 1].word == word then Some(entries[|entries| - 1].category)
    else Lookup(entries[..|entries| - 1], word)
  }

  function WordsOf(group: Group): seq<Alias> {
    seq(|group.words|, i requires 0 <= i < |group.words| => Alias(group.words[i], group.category))
  }

  /** `{word: category for category, words in groups for word in words}` */
  function Words(groups: seq<Group>): seq<Alias> {
    if groups == [] then [] else Words(groups[..|groups| - 1]) + WordsOf(groups[|groups| - 1])
  }

  /** `{value.lower(): value for value in canonical}` */
  function Names(canonical: seq<string>): (entries: seq<Alias>)
    ensures |entries| == |canonical|
    ensures forall i :: 0 <= i < |canonical| ==> entries[i] == Alias(Lower(canonical[i]), canonical[i])
  {
    seq(|canonical|, i requires 0 <= i < |canonical| => Alias(Lower(canonical[i]), canonical[i]))
  }

  /** The category of one raw label: the group words, then the canonical names on top. */
  function Classify(groups: seq<Group>, canonical: seq<string>, raw: string): Option<string> {
    Lookup(Words(groups) + Names(canonical), Lower(Strip(raw)))
  }

  function CategoryOf(groups: seq<Group>, canonical: seq<string>): string -> Option<string> {
    raw => Classify(groups, canonical, raw)
  }

  /** Groups have canonical names; the names are trimmed and differ in more than case. */
  ghost predicate Table(groups: seq<Group>, canonical: seq<string>) {
    && (forall g :: g in groups ==> g.category in canonical)
    && (forall c :: c in canonical ==> c != "" && Trimmed(c))
    && (forall i, j :: 0 <= i < j < |canonical| ==> Lower(canonical[i]) != Lower(canonical[j]))
  }

  lemma {:induction false} LookupMember(entries: seq<Alias>, word: string)
    ensures match Lookup(entries, word)
      case None => forall a :: a in entries ==> a.word != word
      case Some(c) => Alias(word, c) in entries
  {
    if entries != [] {
      assert entries == entries[..|entries| - 1] + [entries[|entries| - 1]];
      LookupMember(entries[..|entries| - 1], word);
    }
  }

  /** Later entries come first. */
  lemma {:induction false} LookupConcat(a: seq<Alias>, b: seq<Alias>, word: string)
    ensures Lookup(a + b, word) == if Lookup(b, word).Some? then Lookup(b, word) else Lookup(a, word)
  {
    if b == [] {
      assert a + b == a;
    } else {
      assert (a + b)[..|a + b| - 1] == a + b[..|b| - 1];
      LookupConcat(a, b[..|b| - 1], word);
    }
  }

  lemma {:induction false} WordsMembers(groups: seq<Group>, a: Alias)
    requires a in Words(groups)
    ensures exists g :: g in groups && g.category == a.category
  {
    var last := groups[|groups| - 1];
    if a in WordsOf(last) {
      assert last in groups;
    } else {
      WordsMembers(groups[..|groups| - 1], a);
    }
  }

  /** A canonical name finds itself. */
  lemma {:induction false} NameFindsItself(canonical: seq<string>, c: string)
    requires c in canonical
    requires forall i, j :: 0 <= i < j < |canonical| ==> Lower(canonical[i]) != Lower(canonical[j])
    ensures Lookup(Names(canonical), Lower(c)) == Some(c)
  {
    var i :| 0 <= i < |canonical| && canonical[i] == c;
    assert Names(canonical)[i].word == Lower(c);
    LookupMember(Names(canonical), Lower(c));
    var found := Lookup(Names(canonical), Lower(c)).value;
    var j :| 0 <= j < |canonical| && Names(canonical)[j] == Alias(Lower(c), found);
  }

  lemma {:induction false} FoundIsCanonical(groups: seq<Group>, canonical: seq<string>, word: string)
    requires forall g :: g in groups ==> g.category in canonical
    ensures var found := Lookup(Words(groups) + Names(canonical), word); found.Some? ==> found.value in canonical
  {
    var words, names := Words(groups), Names(canonical);
    LookupConcat(words, names, word);
    LookupMember(words, word);
    LookupMember(names, word);
    var found := Lookup(words + names, word);
    if found.Some? {
      var a := Alias(word, found.value);
      if a in names {
        var k :| 0 <= k < |names| && names[k] == a;
      } else {
        WordsMembers(groups, a);
      }
    }
  }

  lemma {:induction false} CanonicalIsFixed(groups: seq<Group>, canonical: seq<string>, c: string)
    requires Table(groups, canonical) && c in canonical
    ensures c != "" && Classify(groups, canonical, c) == Some(c)
  {
    StripTrims(c);
    NameFindsItself(canonical, c);
    LookupConcat(Words(groups), Names(canonical), Lower(c));
  }

  lemma {:induction false} LabelIsRefiled(groups: seq<Group>, canonical: seq<string>, raw: string)
    requires Table(groups, canonical) && Classify(groups, canonical, raw).Some?
    ensures var c := Classify(groups, canonical, raw).value; c != "" && Classify(groups, canonical, c) == Some(c)
  {
    FoundIsCanonical(groups, canonical, Lower(Strip(raw)));
    CanonicalIsFixed(groups, canonical, Classify(groups, canonical, raw).value);
  }

  /** Classifying is stable: what a label is filed under is filed under itself. */
  lemma {:induction false} CategoriesCanonicalize(groups: seq<Group>, canonical: seq<string>)
    requires Table(groups, canonical)
    ensures Listings.Canonicalizes(CategoryOf(groups, canonical))
  {
    forall raw | Classify(groups, canonical, raw).Some?
      ensures var c := Classify(groups, canonical, raw).value; c != "" && Classify(groups, canonical, c) == Some(c)
    {
      LabelIsRefiled(groups, canonical, raw);
    }
    assert forall raw :: CategoryOf(groups, canonical)(raw) == Classify(groups, canonical, raw);
  }

  lemma {:induction false} LowerAt(s: string)
    ensures |Lower(s)| == |s|
    ensures forall i :: 0 <= i < |s| ==> Lower(s)[i] == LowerChar(s[i])
  {
    if s != "" {
      LowerAt(s[1..]);
    }
  }

  // Length and fourth letter tell the canonical names apart.
  const LENGTHS: seq<nat> := [5, 9, 6, 14, 4, 8, 4, 6, 7, 8, 8, 6, 8, 13]
  const FOURTHS: string := "ihesmtdrnldiic"

  lemma {:induction false} Signature(i: nat)
    requires i < |CANONICAL|
    ensures |CANONICAL[i]| == LENGTHS[i] >= 4 && CANONICAL[i][3] == FOURTHS[i]
  {
  }

  lemma {:induction false} SignaturesDiffer(i: nat, j: nat)
    requires i < j < 14
    ensures LENGTHS[i] != LENGTHS[j] || LowerChar(FOURTHS[i]) != LowerChar(FOURTHS[j])
  {
  }

  lemma {:induction false} NamesDiffer(i: nat, j: nat)
    requires i < j < |CANONICAL|
    ensures Lower(CANONICAL[i]) != Lower(CANONICAL[j])
  {
    LowerAt(CANONICAL[i]);
    LowerAt(CANONICAL[j]);
    Signature(i);
    Signature(j);
    SignaturesDiffer(i, j);
  }

  lemma {:induction false} NameIsTrimmed(c: string)
    requires c in CANONICAL
    ensures c != "" && Trimmed(c)
  {
  }

  lemma {:induction false} GroupIsCanonical(g: Group)
    requires g in GROUPS
    ensures g.category in CANONICAL
  {
  }

  lemma {:induction false} ShippedNamesDiffer()
    ensures forall i, j :: 0 <= i < j < |CANONICAL| ==> Lower(CANONICAL[i]) != Lower(CANONICAL[j])
  {
    forall i, j | 0 <= i < j < |CANONICAL|
      ensures Lower(CANONICAL[i]) != Lower(CANONICAL[j])
    {
      NamesDiffer(i, j);
    }
  }

  /** The shipped table is such a table. */
  lemma {:induction false} ShippedTable()
    ensures Table(GROUPS, CANONICAL)
  {
    ShippedNamesDiffer();
    forall c | c in CANONICAL
      ensures c != "" && Trimmed(c)
    {
      NameIsTrimmed(c);
    }
    forall g | g in GROUPS
      ensures g.category in CANONICAL
    {
      GroupIsCanonical(g);
    }
  }
}
