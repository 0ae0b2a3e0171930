/** The product's closed vibe vocabulary and its table of aliases. */
module Vocabulary {
  import opened Tags
  import Listings

  const VIBE_VOCABULARY: set<string> := {
    "#chill", "#highenergy", "#intimate", "#social", "#quirky",
    "#date", "#nightout", "#nightlife", "#latenight", "#familyfriendly", "#festival", "#free",
    "#livemusic", "#comedy", "#film", "#art", "#theatre", "#dance", "#workshop", "#market", "#sports", "#outdoors",
    "#wellness", "#intellectual", "#foodanddrink",
    "#jazz", "#classical", "#electronic", "#hiphop", "#rock", "#country"}

  const SYNONYMS: map<string, string> := map[
    "#standup" := "#comedy", "#standupcomedy" := "#comedy", "#comedyclub" := "#comedy",
    "#concert" := "#livemusic", "#smoothjazz" := "#jazz",
    "#relaxed" := "#chill", "#laidback" := "#chill", "#mellow" := "#chill", "#energetic" := "#highenergy",
    "#datenight" := "#date", "#romantic" := "#date", "#romance" := "#date",
    "#familyfun" := "#familyfriendly", "#freeevent" := "#free", "#nightclub" := "#nightlife",
    "#outdoor" := "#outdoors", "#arts" := "#art", "#theater" := "#theatre", "#theatershow" := "#theatre",
    "#dancing" := "#dance", "#cinema" := "#film", "#movie" := "#film", "#movies" := "#film",
    "#foodie" := "#foodanddrink", "#food" := "#foodanddrink", "#drinks" := "#foodanddrink",
    "#yoga" := "#wellness", "#meditation" := "#wellness", "#marketplace" := "#market"]

  /** Length, first letter and last letter of a tag, which tell vibes and aliases apart. */
  function Signature(tag: string): int
    requires |tag| > 1
  {
    |tag| * 65536 + tag[1] as int * 256 + tag[|tag| - 1] as int
  }

  const VIBE_SIGNATURES: set<int> := {
    287092, 353381, 353893, 353901, 354938, 356971, 418668, 418917, 484217, 485488, 486772, 487801, 488300,
    488307, 549753, 554085, 616044, 616805, 618100, 618355, 620400, 620403, 680812, 683107, 683124, 683621,
    746851, 747641, 878187, 878956, 1009273}

  const ALIAS_SIGNATURES: set<int> := {
    352627, 353892, 358753, 421221, 484193, 484467, 484965, 486771, 486775, 549748, 549991, 552818, 553572,
    553573, 553840, 554098, 617579, 619107, 681076, 681315, 681582, 681588, 683618, 746338, 748910, 750458,
    814437, 816247, 947065}

  lemma {:induction false} ShortVibeIsCanonical(tag: string)
    requires tag in VIBE_VOCABULARY && |tag| <= 8
    ensures IsCanonical(tag)
  {
  }

  lemma {:induction false} LongVibeIsCanonical(tag: string)
    requires tag in VIBE_VOCABULARY && |tag| > 8
    ensures IsCanonical(tag)
  {
  }

  lemma {:induction false} ShortAliasIsCanonical(alias: string)
    requires alias in SYNONYMS && |alias| <= 8
    ensures IsCanonical(alias)
  {
  }

  lemma {:induction false} LongAliasIsCanonical(alias: string)
    requires alias in SYNONYMS && |alias| > 8
    ensures IsCanonical(alias)
  {
  }

  lemma {:induction false} VibeSignature(tag: string)
    requires tag in VIBE_VOCABULARY
    ensures |tag| > 1 && Signature(tag) in VIBE_SIGNATURES
  {
  }

  lemma {:induction false} ShortAliasSignature(alias: string)
    requires alias in SYNONYMS && |alias| <= 8
    ensures |alias| > 1 && Signature(alias) in ALIAS_SIGNATURES
  {
  }

  lemma {:induction false} LongAliasSignature(alias: string)
    requires alias in SYNONYMS && |alias| > 8
    ensures Signature(alias) in ALIAS_SIGNATURES
  {
  }

  lemma {:induction false} SignaturesDiffer(signature: int)
    requires signature in VIBE_SIGNATURES
    ensures signature !in ALIAS_SIGNATURES
  {
  }

  lemma {:induction false} AliasMeansAVibe(alias: string)
    requires alias in SYNONYMS
    ensures SYNONYMS[alias] in VIBE_VOCABULARY
  {
  }

  /** Every vibe is spelled canonically and is nobody's alias. */
  lemma {:induction false} VibeIsProper(tag: string)
    requires tag in VIBE_VOCABULARY
    ensures IsCanonical(tag) && tag !in SYNONYMS
  {
    if |tag| <= 8 { ShortVibeIsCanonical(tag); } else { LongVibeIsCanonical(tag); }
    VibeSignature(tag);
    SignaturesDiffer(Signature(tag));
    if tag in SYNONYMS {
      if |tag| <= 8 { ShortAliasSignature(tag); } else { LongAliasSignature(tag); }
    }
  }

  /** The shipped table meets the conditions the tag filter relies on: canonical spellings, no chains. */
  lemma {:induction false} TableIsChainFree()
    ensures Synonyms(SYNONYMS)
    ensures ProperVocabulary(SYNONYMS, VIBE_VOCABULARY)
  {
    forall tag | tag in VIBE_VOCABULARY
      ensures IsCanonical(tag) && tag !in SYNONYMS
    {
      VibeIsProper(tag);
    }
    forall alias | alias in SYNONYMS
      ensures IsCanonical(alias) && IsCanonical(SYNONYMS[alias]) && SYNONYMS[alias] !in SYNONYMS
    {
      if |alias| <= 8 { ShortAliasIsCanonical(alias); } else { LongAliasIsCanonical(alias); }
      AliasMeansAVibe(alias);
      VibeIsProper(SYNONYMS[alias]);
    }
  }

  /** Vibes stand for themselves, as the replay proofs ask of the vocabulary. */
  lemma {:induction false} VibesCanonicalize()
    ensures Listings.Canonicalizes(VibeOf(SYNONYMS, VIBE_VOCABULARY))
  {
    TableIsChainFree();
    VibesStandForThemselves(SYNONYMS, VIBE_VOCABULARY);
  }

  lemma {:induction false} VibesStandForThemselves(synonyms: map<string, string>, vocabulary: set<string>)
    requires ProperVocabulary(synonyms, vocabulary)
    ensures Listings.Canonicalizes(VibeOf(synonyms, vocabulary))
  {
    forall raw | Vibe(synonyms, vocabulary, raw).Some?
      ensures var v := Vibe(synonyms, vocabulary, raw).value;
              v != "" && Vibe(synonyms, vocabulary, v) == Vibe(synonyms, vocabulary, raw)
    {
      CanonicalIsFixed(Vibe(synonyms, vocabulary, raw).value);
    }
    assert forall raw :: VibeOf(synonyms, vocabulary)(raw) == Vibe(synonyms, vocabulary, raw);
  }
}
