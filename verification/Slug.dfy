/** generateSlug and generateUniqueSlug. */
module Slug {
  import opened Text
  import opened SequenceCodes

  /** \w of a regular expression without the u flag. */
  predicate IsWord(c: char) {
    'a' <= c <= 'z' || 'A' <= c <= 'Z' || '0' <= c <= '9' || c == '_'
  }

  /** .replace(/[^\w\s-]/g, '') */
  function KeepAllowed(s: string): string {
    if s == "" then ""
    else (if IsWord(s[0]) || IsSpace(s[0]) || s[0] == '-' then [s[0]] else "") + KeepAllowed(s[1..])
  }

  /** .replace(/\s+/g, '-') : inRun says that the character before was white space. */
  function SpacesToHyphen(s: string, inRun: bool): string {
    if s == "" then ""
    else if IsSpace(s[0]) then (if inRun then "" else "-") + SpacesToHyphen(s[1..], true)
    else [s[0]] + SpacesToHyphen(s[1..], false)
  }

  /** .replace(/-+/g, '-') : inRun says that the character before was a hyphen. */
  function SqueezeHyphens(s: string, inRun: bool): string {
    if s == "" then ""
    else if s[0] == '-' then (if inRun then "" else "-") + SqueezeHyphens(s[1..], true)
    else [s[0]] + SqueezeHyphens(s[1..], false)
  }

  function GenerateSlug(text: string): string {
    Trim(SqueezeHyphens(SpacesToHyphen(KeepAllowed(Lower(text)), false), false))
  }

  // ----- what slugs look like -----

  predicate IsSlugChar(c: char) {
    'a' <= c <= 'z' || '0' <= c <= '9' || c == '_' || c == '-'
  }

  /** Only [a-z0-9_-], and no two hyphens side by side. A slug may start or end with a hyphen, or be empty. */
  predicate IsSlug(s: string) {
    (forall i :: 0 <= i < |s| ==> IsSlugChar(s[i])) && (forall i :: 0 < i < |s| ==> !(s[i - 1] == '-' && s[i] == '-'))
  }

  predicate NoUpper(s: string) {
    forall i :: 0 <= i < |s| ==> !('A' <= s[i] <= 'Z')
  }

  predicate Allowed(s: string) {
    forall i :: 0 <= i < |s| ==> IsSlugChar(s[i]) || IsSpace(s[i])
  }

  predicate AllSlugChars(s: string) {
    forall i :: 0 <= i < |s| ==> IsSlugChar(s[i])
  }

  lemma {:induction false} LowerHasNoUpper(s: string)
    ensures NoUpper(Lower(s))
  {
    if s != "" {
      LowerHasNoUpper(s[1..]);
    }
  }

  lemma {:induction false} KeepGivesAllowed(s: string)
    requires NoUpper(s)
    ensures Allowed(KeepAllowed(s))
  {
    if s != "" {
      KeepGivesAllowed(s[1..]);
    }
  }

  lemma {:induction false} SpacesGiveSlugChars(s: string, inRun: bool)
    requires Allowed(s)
    ensures AllSlugChars(SpacesToHyphen(s, inRun))
  {
    if s != "" {
      SpacesGiveSlugChars(s[1..], IsSpace(s[0]));
    }
  }

  lemma {:induction false} SqueezeGivesSlug(s: string, inRun: bool)
    requires AllSlugChars(s)
    ensures IsSlug(SqueezeHyphens(s, inRun))
    ensures inRun && SqueezeHyphens(s, inRun) != "" ==> SqueezeHyphens(s, inRun)[0] != '-'
  {
    if s != "" {
      SqueezeGivesSlug(s[1..], s[0] == '-');
    }
  }

  lemma {:induction false} SlugsAreTrimmed(s: string)
    requires IsSlug(s)
    ensures Trim(s) == s
  {
    TrimFixes(s);
  }

  lemma {:induction false} SlugIsSlug(text: string)
    ensures IsSlug(GenerateSlug(text))
  {
    LowerHasNoUpper(text);
    KeepGivesAllowed(Lower(text));
    SpacesGiveSlugChars(KeepAllowed(Lower(text)), false);
    SqueezeGivesSlug(SpacesToHyphen(KeepAllowed(Lower(text)), false), false);
    SlugsAreTrimmed(SqueezeHyphens(SpacesToHyphen(KeepAllowed(Lower(text)), false), false));
  }

  // ----- slugs are left alone -----

  lemma {:induction false} FirstStepsFixSlugChars(s: string, inRun: bool)
    requires AllSlugChars(s)
    ensures Lower(s) == s && KeepAllowed(s) == s && SpacesToHyphen(s, inRun) == s
  {
    if s != "" {
      FirstStepsFixSlugChars(s[1..], false);
    }
  }

  lemma {:induction false} SqueezeFixesSlugs(s: string, inRun: bool)
    requires IsSlug(s) && (inRun && s != "" ==> s[0] != '-')
    ensures SqueezeHyphens(s, inRun) == s
  {
    if s != "" {
      assert IsSlug(s[1..]) by {
        assert forall i :: 0 <= i < |s[1..]| ==> s[1..][i] == s[i + 1];
      }
      SqueezeFixesSlugs(s[1..], s[0] == '-');
    }
  }

  /** The slugs are exactly the texts that generateSlug leaves unchanged. */
  lemma {:induction false} FixedPointsAreSlugs(s: string)
    ensures GenerateSlug(s) == s <==> IsSlug(s)
  {
    SlugIsSlug(s);
    if IsSlug(s) {
      FirstStepsFixSlugChars(s, false);
      SqueezeFixesSlugs(s, false);
      SlugsAreTrimmed(s);
    }
  }

  lemma {:induction false} SlugIsIdempotent(text: string)
    ensures GenerateSlug(GenerateSlug(text)) == GenerateSlug(text)
  {
    SlugIsSlug(text);
    FixedPointsAreSlugs(GenerateSlug(text));
  }

  // ----- the chain of replacements as one pass -----

  /** What the chain means: word characters stay, each run of separators becomes one hyphen, the rest goes. */
  function OnePass(s: string, inRun: bool): string {
    if s == "" then ""
    else if IsWord(s[0]) then [s[0]] + OnePass(s[1..], false)
    else if IsSpace(s[0]) || s[0] == '-' then (if inRun then "" else "-") + OnePass(s[1..], true)
    else OnePass(s[1..], inRun)
  }

  lemma {:induction false} ChainIsOnePass(s: string, afterSpace: bool, inRun: bool)
    requires afterSpace ==> inRun
    ensures SqueezeHyphens(SpacesToHyphen(KeepAllowed(s), afterSpace), inRun) == OnePass(s, inRun)
  {
    if s != "" {
      var kept := KeepAllowed(s[1..]);
      if IsWord(s[0]) || IsSpace(s[0]) || s[0] == '-' {
        assert KeepAllowed(s)[1..] == kept;
        if IsSpace(s[0]) {
          ChainIsOnePass(s[1..], true, true);
          assert "" + SpacesToHyphen(kept, true) == SpacesToHyphen(kept, true);
          assert "" + OnePass(s[1..], true) == OnePass(s[1..], true);
          assert ("-" + SpacesToHyphen(kept, true))[1..] == SpacesToHyphen(kept, true);
        } else {
          ChainIsOnePass(s[1..], false, s[0] == '-');
          assert ([s[0]] + SpacesToHyphen(kept, false))[1..] == SpacesToHyphen(kept, false);
        }
      } else {
        assert KeepAllowed(s) == kept;
        ChainIsOnePass(s[1..], afterSpace, inRun);
      }
    }
  }

  lemma {:induction false} SlugIsOnePass(text: string)
    ensures GenerateSlug(text) == OnePass(Lower(text), false)
  {
    LowerHasNoUpper(text);
    KeepGivesAllowed(Lower(text));
    SpacesGiveSlugChars(KeepAllowed(Lower(text)), false);
    SqueezeGivesSlug(SpacesToHyphen(KeepAllowed(Lower(text)), false), false);
    SlugsAreTrimmed(SqueezeHyphens(SpacesToHyphen(KeepAllowed(Lower(text)), false), false));
    ChainIsOnePass(Lower(text), false, false);
  }

  // ----- uniqueness -----

  function Candidate(base: string, counter: nat): string {
    base + "-" + Decimal(counter)
  }

  lemma {:induction false} CandidateInjective(base: string, i: nat, j: nat)
    ensures Candidate(base, i) == Candidate(base, j) <==> i == j
    ensures Candidate(base, i) != base
  {
    DecimalRoundTrip(base + "-", i);
    DecimalRoundTrip(base + "-", j);
    assert |Candidate(base, i)| > |base|;
  }

  ghost predicate AllTaken(base: string, existing: seq<string>, counter: nat) {
    base in existing && forall j :: 2 <= j < counter ==> Candidate(base, j) in existing
  }

  /** The base and the candidates 2..counter-1, as a set. */
  ghost function Tried(base: string, counter: nat): set<string>
    requires counter >= 2
  {
    if counter == 2 then {base} else Tried(base, counter - 1) + {Candidate(base, counter - 1)}
  }

  lemma {:induction false} TriedSize(base: string, existing: seq<string>, counter: nat)
    requires counter >= 2 && AllTaken(base, existing, counter)
    ensures |Tried(base, counter)| == counter - 1
    ensures forall c :: c in Tried(base, counter) ==>
              c in existing && (c == base || exists j :: 2 <= j < counter && c == Candidate(base, j))
  {
    if counter > 2 {
      TriedSize(base, existing, counter - 1);
      forall j | 2 <= j < counter - 1 ensures Candidate(base, counter - 1) != Candidate(base, j) {
        CandidateInjective(base, counter - 1, j);
      }
      CandidateInjective(base, counter - 1, 0);
    }
  }

  lemma {:induction false} SubsetOfSeq(s: set<string>, xs: seq<string>)
    requires forall c :: c in s ==> c in xs
    ensures |s| <= |xs|
  {
    if xs == [] {
      assert s == {};
    } else {
      forall c | c in s - {xs[0]} ensures c in xs[1..] {
        assert c in xs && xs == [xs[0]] + xs[1..];
      }
      SubsetOfSeq(s - {xs[0]}, xs[1..]);
    }
  }

  /** Pigeonhole: as long as every candidate so far is taken, the counter is at most |existing| + 1. */
  lemma {:induction false} CounterIsBounded(base: string, existing: seq<string>, counter: nat)
    requires counter >= 2 && AllTaken(base, existing, counter)
    ensures counter <= |existing| + 1
  {
    TriedSize(base, existing, counter);
    SubsetOfSeq(Tried(base, counter), existing);
  }

  ghost predicate IsLeastFree(base: string, existing: seq<string>, counter: nat) {
    && 2 <= counter <= |existing| + 1
    && Candidate(base, counter) !in existing
    && forall j :: 2 <= j < counter ==> Candidate(base, j) in existing
  }

  method GenerateUniqueSlug(text: string, existing: seq<string>) returns (slug: string)
    ensures slug !in existing
    ensures GenerateSlug(text) !in existing ==> slug == GenerateSlug(text)
    ensures GenerateSlug(text) in existing ==>
              exists counter :: IsLeastFree(GenerateSlug(text), existing, counter)
                                && slug == Candidate(GenerateSlug(text), counter)
  {
    var base := GenerateSlug(text);
    if base !in existing {
      return base;
    }
    var counter := 2;
    CounterIsBounded(base, existing, 2);
    while base + "-" + Decimal(counter) in existing
      invariant 2 <= counter <= |existing| + 1 && AllTaken(base, existing, counter)
      decreases |existing| + 1 - counter
    {
      assert Candidate(base, counter) in existing;
      CounterIsBounded(base, existing, counter + 1);
      counter := counter + 1;
    }
    slug := base + "-" + Decimal(counter);
    assert IsLeastFree(base, existing, counter) && slug == Candidate(base, counter);
  }

  /** A numbered candidate is itself a slug unless the base ends with a hyphen (then two hyphens meet). */
  lemma {:induction false} CandidateIsSlugIff(base: string, counter: nat)
    requires IsSlug(base)
    ensures IsSlug(Candidate(base, counter)) <==> base == "" || base[|base| - 1] != '-'
  {
    var c := Candidate(base, counter);
    DecimalMeans(counter);
    assert forall i :: 0 <= i < |base| ==> c[i] == base[i];
    assert c[|base|] == '-';
    assert forall i :: |base| < i < |c| ==> c[i] == Decimal(counter)[i - |base| - 1];
  }
}
