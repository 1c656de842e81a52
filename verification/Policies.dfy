/** Allocation policies and the two validators: the engine's, and the browser's preview of it. */
module Policies {
  import opened Options

  const MAX_RECIPIENTS: nat := 4096

  datatype Entry = Entry(recipient: nat, weight: int, amount: int)

  datatype Policy = Policy(contractAddr: nat, roundId: nat, organization: nat, mode: nat, totalBudget: int,
                           minAlloc: int, maxAlloc: int, bands: seq<int>, entries: seq<Entry>)

  const EXPLICIT: nat := 0
  const WEIGHTED: nat := 1
  const TIERED: nat := 2

  function SumAmounts(es: seq<Entry>): int
  {
    if es == [] then 0 else es[0].amount + SumAmounts(es[1..])
  }

  function SumWeights(es: seq<Entry>): int
  {
    if es == [] then 0 else es[0].weight + SumWeights(es[1..])
  }

  predicate InBands(e: Entry, bands: seq<int>)
  {
    0 <= e.weight < |bands|
  }

  function SumBands(es: seq<Entry>, bands: seq<int>): int
    requires forall i :: 0 <= i < |es| ==> InBands(es[i], bands)
  {
    if es == [] then 0
    else
      assert InBands(es[0], bands);
      bands[es[0].weight] + SumBands(es[1..], bands)
  }

  // ---- What a policy must be -----------------------------------------------------------------

  predicate GoodEntry(e: Entry)
  {
    e.recipient != 0 && e.weight >= 0 && e.amount >= 0
  }

  predicate Distinct(es: seq<Entry>)
  {
    forall i, j :: 0 <= i < j < |es| ==> es[i].recipient != es[j].recipient
  }

  predicate GoodMode(p: Policy)
  {
    if p.mode == EXPLICIT then
      (forall i :: 0 <= i < |p.entries| ==> p.entries[i].weight == 0)
      && p.bands == [] && SumAmounts(p.entries) <= p.totalBudget
    else if p.mode == WEIGHTED then
      (forall i :: 0 <= i < |p.entries| ==> p.entries[i].amount == 0)
      && p.bands == [] && SumWeights(p.entries) != 0
    else if p.mode == TIERED then
      && p.bands != [] && (forall i :: 0 <= i < |p.bands| ==> p.bands[i] >= 0)
      && (forall i :: 0 <= i < |p.entries| ==> p.entries[i].amount == 0 && InBands(p.entries[i], p.bands))
      && SumBands(p.entries, p.bands) <= p.totalBudget
    else false
  }

  predicate WellFormed(p: Policy)
  {
    && p.totalBudget > 0 && p.minAlloc >= 0 && p.maxAlloc >= 0
    && (p.maxAlloc > 0 ==> p.minAlloc <= p.maxAlloc)
    && 0 < |p.entries| <= MAX_RECIPIENTS
    && (forall i :: 0 <= i < |p.entries| ==> GoodEntry(p.entries[i]))
    && Distinct(p.entries)
    && GoodMode(p)
  }

  // What the engine accepts when it serves the given contract; None when it was not configured.
  predicate Valid(p: Policy, served: Option<nat>)
  {
    served == Some(p.contractAddr) && WellFormed(p) && (p.mode == TIERED ==> |p.bands| <= MAX_RECIPIENTS)
  }

  // ---- Reasons for refusal -------------------------------------------------------------------

  datatype Fault =
    | NotConfigured | WrongContract | NonPositiveBudget | NegativeMin | NegativeMax | MinAboveMax
    | NoEntries | TooManyEntries
    | ZeroRecipient(i: nat) | DuplicateRecipient(i: nat, previous: nat)
    | NegativeWeight(i: nat) | NegativeAmount(i: nat) | WeightSet(i: nat) | AmountSet(i: nat)
    | BandsSet | OverBudget | NoWeight | NoBands | TooManyBands | NegativeBand(i: nat)
    | BandOutOfRange(i: nat) | UnknownMode

  // The fault describes the policy.
  predicate Applies(f: Fault, p: Policy, served: Option<nat>)
  {
    match f
    case NotConfigured => served == None
    case WrongContract => served != Some(p.contractAddr)
    case NonPositiveBudget => p.totalBudget <= 0
    case NegativeMin => p.minAlloc < 0
    case NegativeMax => p.maxAlloc < 0
    case MinAboveMax => 0 < p.maxAlloc < p.minAlloc
    case NoEntries => p.entries == []
    case TooManyEntries => |p.entries| > MAX_RECIPIENTS
    case ZeroRecipient(i) => i < |p.entries| && p.entries[i].recipient == 0
    case DuplicateRecipient(i, j) => j < i < |p.entries| && p.entries[i].recipient == p.entries[j].recipient
    case NegativeWeight(i) => i < |p.entries| && p.entries[i].weight < 0
    case NegativeAmount(i) => i < |p.entries| && p.entries[i].amount < 0
    case WeightSet(i) => p.mode == EXPLICIT && i < |p.entries| && p.entries[i].weight != 0
    case AmountSet(i) => p.mode != EXPLICIT && i < |p.entries| && p.entries[i].amount != 0
    case BandsSet => p.mode != TIERED && p.bands != []
    case OverBudget =>
      (p.mode == EXPLICIT && SumAmounts(p.entries) > p.totalBudget)
      || (p.mode == TIERED && (forall i :: 0 <= i < |p.entries| ==> InBands(p.entries[i], p.bands))
          && SumBands(p.entries, p.bands) > p.totalBudget)
    case NoWeight => p.mode == WEIGHTED && SumWeights(p.entries) == 0
    case NoBands => p.mode == TIERED && p.bands == []
    case TooManyBands => p.mode == TIERED && |p.bands| > MAX_RECIPIENTS
    case NegativeBand(i) => p.mode == TIERED && i < |p.bands| && p.bands[i] < 0
    case BandOutOfRange(i) => p.mode == TIERED && i < |p.entries| && !InBands(p.entries[i], p.bands)
    case UnknownMode => p.mode > TIERED
  }

  // A policy is valid exactly if it has no fault.
  lemma ValidExactly(p: Policy, served: Option<nat>)
    ensures Valid(p, served) <==> forall f: Fault :: !Applies(f, p, served)
  {
    if forall f: Fault :: !Applies(f, p, served) {
      FaultlessPolicy(p, served);
      FaultlessMode(p, served);
    }
  }

  lemma FaultlessPolicy(p: Policy, served: Option<nat>)
    requires forall f: Fault :: !Applies(f, p, served)
    ensures served == Some(p.contractAddr) && p.totalBudget > 0 && p.minAlloc >= 0 && p.maxAlloc >= 0
    ensures (p.maxAlloc > 0 ==> p.minAlloc <= p.maxAlloc) && 0 < |p.entries| <= MAX_RECIPIENTS
    ensures (forall i :: 0 <= i < |p.entries| ==> GoodEntry(p.entries[i])) && Distinct(p.entries)
  {
    assert !Applies(WrongContract, p, served) && !Applies(NonPositiveBudget, p, served);
    assert !Applies(NegativeMin, p, served) && !Applies(NegativeMax, p, served) && !Applies(MinAboveMax, p, served);
    assert !Applies(NoEntries, p, served) && !Applies(TooManyEntries, p, served);
    forall i: nat | i < |p.entries|
      ensures GoodEntry(p.entries[i])
    {
      assert !Applies(ZeroRecipient(i), p, served);
      assert !Applies(NegativeWeight(i), p, served) && !Applies(NegativeAmount(i), p, served);
    }
    forall i: nat, j: nat | i < j < |p.entries|
      ensures p.entries[i].recipient != p.entries[j].recipient
    {
      assert !Applies(DuplicateRecipient(j, i), p, served);
    }
  }

  lemma FaultlessRows(p: Policy, served: Option<nat>)
    requires forall f: Fault :: !Applies(f, p, served)
    ensures p.mode == EXPLICIT ==> forall i :: 0 <= i < |p.entries| ==> p.entries[i].weight == 0
    ensures p.mode != EXPLICIT ==> forall i :: 0 <= i < |p.entries| ==> p.entries[i].amount == 0
    ensures p.mode == TIERED ==> forall i :: 0 <= i < |p.entries| ==> InBands(p.entries[i], p.bands)
  {
    forall i: nat | i < |p.entries|
      ensures p.mode == EXPLICIT ==> p.entries[i].weight == 0
      ensures p.mode != EXPLICIT ==> p.entries[i].amount == 0
      ensures p.mode == TIERED ==> InBands(p.entries[i], p.bands)
    {
      assert !Applies(WeightSet(i), p, served) && !Applies(AmountSet(i), p, served);
      assert !Applies(BandOutOfRange(i), p, served);
    }
  }

  lemma FaultlessBands(p: Policy, served: Option<nat>)
    requires forall f: Fault :: !Applies(f, p, served)
    ensures p.mode == TIERED ==> p.bands != [] && |p.bands| <= MAX_RECIPIENTS
    ensures p.mode == TIERED ==> forall i :: 0 <= i < |p.bands| ==> p.bands[i] >= 0
    ensures p.mode != TIERED ==> p.bands == []
  {
    assert !Applies(BandsSet, p, served) && !Applies(NoBands, p, served) && !Applies(TooManyBands, p, served);
    forall i: nat | p.mode == TIERED && i < |p.bands|
      ensures p.bands[i] >= 0
    {
      assert !Applies(NegativeBand(i), p, served);
    }
  }

  lemma FaultlessMode(p: Policy, served: Option<nat>)
    requires forall f: Fault :: !Applies(f, p, served)
    ensures GoodMode(p) && (p.mode == TIERED ==> |p.bands| <= MAX_RECIPIENTS)
  {
    FaultlessRows(p, served);
    FaultlessBands(p, served);
    assert !Applies(UnknownMode, p, served) && !Applies(OverBudget, p, served) && !Applies(NoWeight, p, served);
  }

  // ---- The engine's validator ----------------------------------------------------------------

  method ValidateExplicit(p: Policy, ghost served: Option<nat>) returns (fault: Option<Fault>)
    requires p.mode == EXPLICIT
    ensures fault == None <==> GoodMode(p)
    ensures fault.Some? ==> Applies(fault.value, p, served)
  {
    var total := 0;
    for i := 0 to |p.entries|
      invariant forall k :: 0 <= k < i ==> p.entries[k].weight == 0
      invariant total + SumAmounts(p.entries[i..]) == SumAmounts(p.entries)
    {
      if p.entries[i].weight != 0 {
        return Some(WeightSet(i));
      }
      assert p.entries[i..][1..] == p.entries[i + 1..];
      total := total + p.entries[i].amount;
    }
    if total > p.totalBudget {
      return Some(OverBudget);
    }
    return if |p.bands| != 0 then Some(BandsSet) else None;
  }

  method ValidateWeighted(p: Policy, ghost served: Option<nat>) returns (fault: Option<Fault>)
    requires p.mode == WEIGHTED
    ensures fault == None <==> GoodMode(p)
    ensures fault.Some? ==> Applies(fault.value, p, served)
  {
    var weightSum := 0;
    for i := 0 to |p.entries|
      invariant forall k :: 0 <= k < i ==> p.entries[k].amount == 0
      invariant weightSum + SumWeights(p.entries[i..]) == SumWeights(p.entries)
    {
      if p.entries[i].amount != 0 {
        return Some(AmountSet(i));
      }
      assert p.entries[i..][1..] == p.entries[i + 1..];
      weightSum := weightSum + p.entries[i].weight;
    }
    if weightSum == 0 {
      return Some(NoWeight);
    }
    return if |p.bands| != 0 then Some(BandsSet) else None;
  }

  method ValidateBands(p: Policy, ghost served: Option<nat>) returns (fault: Option<Fault>)
    requires p.mode == TIERED
    ensures fault == None <==>
              0 < |p.bands| <= MAX_RECIPIENTS && forall i :: 0 <= i < |p.bands| ==> p.bands[i] >= 0
    ensures fault.Some? ==> Applies(fault.value, p, served)
  {
    if |p.bands| == 0 {
      return Some(NoBands);
    }
    if |p.bands| > MAX_RECIPIENTS {
      return Some(TooManyBands);
    }
    for i := 0 to |p.bands|
      invariant forall k :: 0 <= k < i ==> p.bands[k] >= 0
    {
      if p.bands[i] < 0 {
        return Some(NegativeBand(i));
      }
    }
    return None;
  }

  method ValidateTiers(p: Policy, ghost served: Option<nat>) returns (fault: Option<Fault>)
    requires p.mode == TIERED && forall i :: 0 <= i < |p.entries| ==> GoodEntry(p.entries[i])
    ensures fault == None <==>
              && (forall i :: 0 <= i < |p.entries| ==> p.entries[i].amount == 0 && InBands(p.entries[i], p.bands))
              && SumBands(p.entries, p.bands) <= p.totalBudget
    ensures fault.Some? ==> Applies(fault.value, p, served)
  {
    var total := 0;
    for i := 0 to |p.entries|
      invariant forall k :: 0 <= k < i ==> p.entries[k].amount == 0 && InBands(p.entries[k], p.bands)
      invariant total == SumBands(p.entries[..i], p.bands)
    {
      assert GoodEntry(p.entries[i]);
      if p.entries[i].amount != 0 {
        return Some(AmountSet(i));
      }
      if p.entries[i].weight >= |p.bands| {
        return Some(BandOutOfRange(i));
      }
      total := total + p.bands[p.entries[i].weight];
      SumBandsSnoc(p.entries[..i], p.entries[i], p.bands);
      assert p.entries[..i + 1] == p.entries[..i] + [p.entries[i]];
    }
    assert p.entries[..|p.entries|] == p.entries;
    return if total > p.totalBudget then Some(OverBudget) else None;
  }

  method ValidateTiered(p: Policy, ghost served: Option<nat>) returns (fault: Option<Fault>)
    requires p.mode == TIERED
    requires forall i :: 0 <= i < |p.entries| ==> GoodEntry(p.entries[i])
    ensures fault == None <==> GoodMode(p) && |p.bands| <= MAX_RECIPIENTS
    ensures fault.Some? ==> Applies(fault.value, p, served)
  {
    fault := ValidateBands(p, served);
    if fault == None {
      fault := ValidateTiers(p, served);
    }
  }

  method ValidateMode(p: Policy, ghost served: Option<nat>) returns (fault: Option<Fault>)
    requires forall i :: 0 <= i < |p.entries| ==> GoodEntry(p.entries[i])
    ensures fault == None <==> GoodMode(p) && (p.mode == TIERED ==> |p.bands| <= MAX_RECIPIENTS)
    ensures fault.Some? ==> Applies(fault.value, p, served)
  {
    if p.mode == EXPLICIT {
      fault := ValidateExplicit(p, served);
    } else if p.mode == WEIGHTED {
      fault := ValidateWeighted(p, served);
    } else if p.mode == TIERED {
      fault := ValidateTiered(p, served);
    } else {
      fault := Some(UnknownMode);
    }
  }

  lemma {:induction false} SumBandsSnoc(es: seq<Entry>, e: Entry, bands: seq<int>)
    requires InBands(e, bands) && forall i :: 0 <= i < |es| ==> InBands(es[i], bands)
    ensures SumBands(es + [e], bands) == SumBands(es, bands) + bands[e.weight]
  {
    if es == [] {
      assert [e][1..] == [];
    } else {
      SumBandsSnoc(es[1..], e, bands);
      assert (es + [e])[1..] == es[1..] + [e];
    }
  }

  method ValidateEntries(p: Policy, ghost served: Option<nat>) returns (fault: Option<Fault>)
    ensures fault == None <==> GoodEntries(p.entries)
    ensures fault.Some? ==> Applies(fault.value, p, served)
  {
    var seen: map<nat, nat> := map[];
    for i := 0 to |p.entries|
      invariant forall k :: 0 <= k < i ==> GoodEntry(p.entries[k]) && p.entries[k].recipient in seen
      invariant forall r :: r in seen ==> seen[r] < i && p.entries[seen[r]].recipient == r
      invariant Distinct(p.entries[..i])
    {
      var e := p.entries[i];
      if e.recipient == 0 {
        return Some(ZeroRecipient(i));
      }
      if e.recipient in seen {
        return Some(DuplicateRecipient(i, seen[e.recipient]));
      }
      seen := seen[e.recipient := i];
      if e.weight < 0 {
        return Some(NegativeWeight(i));
      }
      if e.amount < 0 {
        return Some(NegativeAmount(i));
      }
    }
    assert p.entries[..|p.entries|] == p.entries;
    return None;
  }

  // Accepts exactly the valid policies; a refusal names a fault the policy has.
  method Validate(p: Policy, served: Option<nat>) returns (fault: Option<Fault>)
    ensures fault == None <==> Valid(p, served)
    ensures fault.Some? ==> Applies(fault.value, p, served)
  {
    if served == None {
      return Some(NotConfigured);
    }
    if p.contractAddr != served.value {
      return Some(WrongContract);
    }
    if p.totalBudget <= 0 {
      return Some(NonPositiveBudget);
    }
    if p.minAlloc < 0 {
      return Some(NegativeMin);
    }
    if p.maxAlloc < 0 {
      return Some(NegativeMax);
    }
    if p.maxAlloc > 0 && p.minAlloc > 0 && p.minAlloc > p.maxAlloc {
      return Some(MinAboveMax);
    }
    if |p.entries| == 0 {
      return Some(NoEntries);
    }
    if |p.entries| > MAX_RECIPIENTS {
      return Some(TooManyEntries);
    }
    fault := ValidateEntries(p, served);
    if fault == None {
      fault := ValidateMode(p, served);
    }
  }

  // ---- The browser's preview -----------------------------------------------------------------

  // The total the preview promises.
  function Projected(p: Policy): int
    requires WellFormed(p)
  {
    if p.mode == EXPLICIT then SumAmounts(p.entries)
    else if p.mode == WEIGHTED then p.totalBudget
    else SumBands(p.entries, p.bands)
  }

  ghost predicate GoodEntries(es: seq<Entry>)
  {
    Distinct(es) && forall i :: 0 <= i < |es| ==> GoodEntry(es[i])
  }

  lemma GoodEntriesSnoc(es: seq<Entry>, e: Entry)
    ensures GoodEntries(es + [e]) <==>
      GoodEntries(es) && GoodEntry(e) && forall k :: 0 <= k < |es| ==> es[k].recipient != e.recipient
  {
    var fs := es + [e];
    assert fs[|es|] == e && forall k :: 0 <= k < |es| ==> fs[k] == es[k];
  }

  // The map names, for every recipient before position i, where it stands.
  ghost predicate Seen(es: seq<Entry>, seen: map<nat, nat>, i: nat)
    requires i <= |es|
  {
    && (forall k :: 0 <= k < i ==> es[k].recipient in seen)
    && (forall r :: r in seen ==> seen[r] < i && es[seen[r]].recipient == r)
  }

  lemma SeenTells(es: seq<Entry>, seen: map<nat, nat>, i: nat)
    requires i < |es| && Seen(es, seen, i)
    ensures Seen(es, seen[es[i].recipient := i], i + 1)
    ensures GoodEntries(es[..i + 1]) <==> GoodEntries(es[..i]) && GoodEntry(es[i]) && es[i].recipient !in seen
  {
    assert es[..i + 1] == es[..i] + [es[i]];
    GoodEntriesSnoc(es[..i], es[i]);
    if es[i].recipient in seen {
      assert es[..i][seen[es[i].recipient]].recipient == es[i].recipient;
    }
  }

  // The complaints about one entry.
  method PreviewEntry(e: Entry, i: nat, seen: map<nat, nat>) returns (errors: seq<Fault>)
    ensures errors == [] <==> GoodEntry(e) && e.recipient !in seen
  {
    errors := [];
    if e.recipient == 0 {
      errors := errors + [ZeroRecipient(i)];
    }
    if e.recipient in seen {
      errors := errors + [DuplicateRecipient(i, seen[e.recipient])];
    }
    if e.weight < 0 {
      errors := errors + [NegativeWeight(i)];
    }
    if e.amount < 0 {
      errors := errors + [NegativeAmount(i)];
    }
  }

  method PreviewEntries(p: Policy) returns (errors: seq<Fault>)
    ensures errors == [] <==> GoodEntries(p.entries)
  {
    errors := [];
    var seen: map<nat, nat> := map[];
    for i := 0 to |p.entries|
      invariant Seen(p.entries, seen, i)
      invariant errors == [] <==> GoodEntries(p.entries[..i])
    {
      SeenTells(p.entries, seen, i);
      var more := PreviewEntry(p.entries[i], i, seen);
      errors := errors + more;
      seen := seen[p.entries[i].recipient := i];
    }
    assert p.entries[..|p.entries|] == p.entries;
  }

  ghost predicate NoNegativeWeight(es: seq<Entry>)
  {
    forall i :: 0 <= i < |es| ==> es[i].weight >= 0
  }

  method PreviewExplicit(p: Policy) returns (errors: seq<Fault>, total: int)
    requires p.mode == EXPLICIT
    ensures errors == [] <==> GoodMode(p)
    ensures total == SumAmounts(p.entries)
  {
    errors := if |p.bands| > 0 then [BandsSet] else [];
    total := 0;
    for i := 0 to |p.entries|
      invariant errors == [] <==> p.bands == [] && forall k :: 0 <= k < i ==> p.entries[k].weight == 0
      invariant total + SumAmounts(p.entries[i..]) == SumAmounts(p.entries)
    {
      if p.entries[i].weight != 0 {
        errors := errors + [WeightSet(i)];
      }
      assert p.entries[i..][1..] == p.entries[i + 1..];
      total := total + p.entries[i].amount;
    }
    if total > p.totalBudget {
      errors := errors + [OverBudget];
    }
  }

  method PreviewWeighted(p: Policy) returns (errors: seq<Fault>, total: int)
    requires p.mode == WEIGHTED
    ensures errors == [] <==> GoodMode(p)
    ensures total == if SumWeights(p.entries) > 0 then p.totalBudget else 0
  {
    errors := if |p.bands| > 0 then [BandsSet] else [];
    var weightSum := 0;
    for i := 0 to |p.entries|
      invariant errors == [] <==> p.bands == [] && forall k :: 0 <= k < i ==> p.entries[k].amount == 0
      invariant weightSum + SumWeights(p.entries[i..]) == SumWeights(p.entries)
    {
      if p.entries[i].amount != 0 {
        errors := errors + [AmountSet(i)];
      }
      assert p.entries[i..][1..] == p.entries[i + 1..];
      weightSum := weightSum + p.entries[i].weight;
    }
    if weightSum == 0 {
      errors := errors + [NoWeight];
    }
    total := if weightSum > 0 then p.totalBudget else 0;
  }

  ghost predicate GoodBands(bands: seq<int>)
  {
    bands != [] && forall k :: 0 <= k < |bands| ==> bands[k] >= 0
  }

  ghost predicate GoodTiers(es: seq<Entry>, bands: seq<int>)
  {
    forall k :: 0 <= k < |es| ==> es[k].amount == 0 && InBands(es[k], bands)
  }

  lemma GoodTiersSnoc(es: seq<Entry>, e: Entry, bands: seq<int>)
    ensures GoodTiers(es + [e], bands) <==> GoodTiers(es, bands) && e.amount == 0 && InBands(e, bands)
  {
    assert (es + [e])[|es|] == e;
    assert forall k :: 0 <= k < |es| ==> (es + [e])[k] == es[k];
  }

  // A negative band index reads as undefined, hence as zero, and is not an error here: it was one
  // already where the entries were checked.
  method PreviewTiered(p: Policy) returns (errors: seq<Fault>, total: int)
    requires p.mode == TIERED
    ensures NoNegativeWeight(p.entries) ==> (errors == [] <==> GoodMode(p))
    ensures NoNegativeWeight(p.entries) && errors == [] ==> total == SumBands(p.entries, p.bands)
  {
    errors := if |p.bands| == 0 then [NoBands] else [];
    for i := 0 to |p.bands|
      invariant errors == [] <==> p.bands != [] && forall k :: 0 <= k < i ==> p.bands[k] >= 0
    {
      if p.bands[i] < 0 {
        errors := errors + [NegativeBand(i)];
      }
    }
    total := 0;
    ghost var honest := NoNegativeWeight(p.entries);
    for i := 0 to |p.entries|
      invariant honest ==> (errors == [] <==> GoodBands(p.bands) && GoodTiers(p.entries[..i], p.bands))
      invariant honest && errors == [] ==> total == SumBands(p.entries[..i], p.bands)
    {
      var e := p.entries[i];
      if e.amount != 0 {
        errors := errors + [AmountSet(i)];
      }
      if e.weight >= |p.bands| {
        errors := errors + [BandOutOfRange(i)];
      } else {
        total := total + if e.weight >= 0 then p.bands[e.weight] else 0;
      }
      assert p.entries[..i + 1] == p.entries[..i] + [e];
      GoodTiersSnoc(p.entries[..i], e, p.bands);
      if honest && errors == [] {
        SumBandsSnoc(p.entries[..i], e, p.bands);
      }
    }
    assert p.entries[..|p.entries|] == p.entries;
    if total > p.totalBudget {
      errors := errors + [OverBudget];
    }
  }

  method PreviewMode(p: Policy) returns (errors: seq<Fault>, projectedTotal: Option<int>)
    ensures NoNegativeWeight(p.entries) ==> (errors == [] <==> GoodMode(p))
    ensures errors == [] && WellFormed(p) ==> projectedTotal == Some(Projected(p))
  {
    if p.mode > TIERED {
      return [UnknownMode], None;
    }
    var total;
    if p.mode == EXPLICIT {
      errors, total := PreviewExplicit(p);
    } else if p.mode == WEIGHTED {
      errors, total := PreviewWeighted(p);
      if NoNegativeWeight(p.entries) {
        WeightsAddUp(p.entries);
      }
    } else {
      errors, total := PreviewTiered(p);
    }
    projectedTotal := Some(total);
  }

  lemma {:induction false} WeightsAddUp(es: seq<Entry>)
    requires NoNegativeWeight(es)
    ensures SumWeights(es) >= 0
  {
    if es != [] {
      WeightsAddUp(es[1..]);
    }
  }

  // The preview accepts exactly the well-formed policies: the engine's verdict, less the two rules
  // only the engine can or does check.
  method ValidatePolicy(p: Policy) returns (ok: bool, errors: seq<Fault>, projectedTotal: Option<int>)
    ensures ok <==> errors == []
    ensures ok <==> WellFormed(p)
    ensures ok ==> projectedTotal == Some(Projected(p))
  {
    errors := [];
    if p.totalBudget <= 0 {
      errors := errors + [NonPositiveBudget];
    }
    if p.minAlloc < 0 {
      errors := errors + [NegativeMin];
    }
    if p.maxAlloc < 0 {
      errors := errors + [NegativeMax];
    }
    if p.maxAlloc > 0 && p.minAlloc > p.maxAlloc {
      errors := errors + [MinAboveMax];
    }
    if |p.entries| == 0 {
      errors := errors + [NoEntries];
    }
    if |p.entries| > MAX_RECIPIENTS {
      errors := errors + [TooManyEntries];
    }
    var more := PreviewEntries(p);
    errors := errors + more;
    var rest;
    rest, projectedTotal := PreviewMode(p);
    errors := errors + rest;
    ok := errors == [];
  }
}
