/**
 * Evidence bundles (crates/morpheus-client/src/types/evidence.rs): a set of
 * citation tags with a knowledge factor and an uncertainty, both fractions.
 * A proposal may only be evaluated against a bundle that validates.
 */
module Evidence {
  import opened Results

  datatype EvidenceTag = EvidenceTag(
    hexId: string,
    domain: string,
    description: string,
    citation: string,
    version: string)

  /** The creation timestamp of the source is not modelled. */
  datatype EvidenceBundle = EvidenceBundle(
    id: string,
    tags: seq<EvidenceTag>,
    knowledgeFactor: real,
    uncertainty: real,
    provenance: Option<map<string, string>>)

  /** The reasons `validate` gives, in the order it checks them. */
  datatype EvidenceError =
    | EmptyId
    | NoTags
    | TooManyTags
    | KnowledgeFactorOutOfRange
    | UncertaintyOutOfRange

  const MaxTags: nat := 20

  predicate IsFraction(x: real) {
    0.0 <= x <= 1.0
  }

  /** Every structural requirement a bundle must meet, as one conjunction. */
  predicate WellFormed(b: EvidenceBundle) {
    && |b.id| > 0
    && 0 < |b.tags| <= MaxTags
    && IsFraction(b.knowledgeFactor)
    && IsFraction(b.uncertainty)
  }

  /** Rust's `f64::clamp` (NaN aside). */
  function Clamp(x: real, lo: real, hi: real): (r: real)
    requires lo <= hi
    ensures lo <= r <= hi
    ensures lo <= x <= hi ==> r == x
    ensures x < lo ==> r == lo
    ensures hi < x ==> r == hi
  {
    if x < lo then lo else if hi < x then hi else x
  }

  /** `EvidenceBundle::new`: both factors clamped into [0, 1], no tags yet. */
  function New(id: string, knowledgeFactor: real, uncertainty: real): (b: EvidenceBundle)
    ensures b.id == id && b.tags == [] && b.provenance == None
    ensures IsFraction(b.knowledgeFactor) && IsFraction(b.uncertainty)
    ensures IsFraction(knowledgeFactor) ==> b.knowledgeFactor == knowledgeFactor
    ensures IsFraction(uncertainty) ==> b.uncertainty == uncertainty
    ensures knowledgeFactor < 0.0 ==> b.knowledgeFactor == 0.0
    ensures 1.0 < knowledgeFactor ==> b.knowledgeFactor == 1.0
    ensures uncertainty < 0.0 ==> b.uncertainty == 0.0
    ensures 1.0 < uncertainty ==> b.uncertainty == 1.0
  {
    EvidenceBundle(id, [], Clamp(knowledgeFactor, 0.0, 1.0), Clamp(uncertainty, 0.0, 1.0), None)
  }

  /** `add_tag`: one tag appended, every other field kept. */
  function AddTag(b: EvidenceBundle, tag: EvidenceTag): (r: EvidenceBundle)
    ensures r.tags == b.tags + [tag]
    ensures r.(tags := b.tags) == b
  {
    b.(tags := b.tags + [tag])
  }

  /** `validate`: the first failing check, in the source's order. */
  function Validate(b: EvidenceBundle): (r: Result<(), EvidenceError>)
    ensures r.Ok? <==> WellFormed(b)
    ensures r == Err(EmptyId) <==> |b.id| == 0
    ensures r == Err(NoTags) <==> |b.id| > 0 && |b.tags| == 0
    ensures r == Err(TooManyTags) <==> |b.id| > 0 && |b.tags| > MaxTags
    ensures r == Err(KnowledgeFactorOutOfRange) <==>
      |b.id| > 0 && 0 < |b.tags| <= MaxTags && !IsFraction(b.knowledgeFactor)
    ensures r == Err(UncertaintyOutOfRange) <==>
      |b.id| > 0 && 0 < |b.tags| <= MaxTags && IsFraction(b.knowledgeFactor) && !IsFraction(b.uncertainty)
  {
    if |b.id| == 0 then Err(EmptyId)
    else if |b.tags| == 0 then Err(NoTags)
    else if |b.tags| > MaxTags then Err(TooManyTags)
    else if b.knowledgeFactor < 0.0 || b.knowledgeFactor > 1.0 then Err(KnowledgeFactorOutOfRange)
    else if b.uncertainty < 0.0 || b.uncertainty > 1.0 then Err(UncertaintyOutOfRange)
    else Ok(())
  }

  /** `effective_margin`: the knowledge factor discounted by the uncertainty. */
  function EffectiveMargin(b: EvidenceBundle): (m: real)
    ensures IsFraction(b.knowledgeFactor) && IsFraction(b.uncertainty) ==> IsFraction(m)
    ensures IsFraction(b.uncertainty) ==> m <= b.knowledgeFactor || b.knowledgeFactor < 0.0
    ensures b.uncertainty == 0.0 ==> m == b.knowledgeFactor
    ensures b.uncertainty == 1.0 ==> m == 0.0
  {
    DiscountBounds(b.knowledgeFactor, b.uncertainty);
    b.knowledgeFactor * (1.0 - b.uncertainty)
  }

  /** Discounting a non-negative amount by a fraction keeps it between zero and itself. */
  lemma DiscountBounds(x: real, u: real)
    ensures 0.0 <= x && IsFraction(u) ==> 0.0 <= x * (1.0 - u) <= x
  {
    if 0.0 <= x && IsFraction(u) {
      var y := 1.0 - u;
      assert 0.0 <= y <= 1.0;
      assert x * y <= x * 1.0;
    }
  }

  /**
   * A bundle fresh from `New` never validates (it has no tags); one tag added
   * to a bundle with a non-empty id makes it validate.
   */
  lemma FreshBundleNeedsOneTag(id: string, knowledgeFactor: real, uncertainty: real, tag: EvidenceTag)
    ensures Validate(New(id, knowledgeFactor, uncertainty)).Err?
    ensures |id| > 0 ==> Validate(AddTag(New(id, knowledgeFactor, uncertainty), tag)).Ok?
  {
  }

  /** The margin of `New(_, 0.9, 0.1)` is exactly 0.81 over the reals. */
  lemma EffectiveMarginExample(id: string)
    ensures EffectiveMargin(New(id, 0.9, 0.1)) == 0.81
  {
  }
}
