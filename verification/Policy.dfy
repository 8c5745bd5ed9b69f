/** The import policy: four stateless checks and a counter of accepted routes. */
module Policy {
  import opened Bytes
  import opened Prefixes
  import opened RibModel

  datatype ImportReject =
    | NotInWhitelist(prefix: Prefix)
    | Bogon(prefix: Prefix)
    | AsLoop(asn: u32)
    | MissingNextHop

  /** The configured part of a policy. */
  datatype Rules = Rules(whitelist: seq<Prefix>, bogons: seq<Prefix>, ownAs: u32, maxPrefixes: Option<u32>)

  /** Next hop, bogon, whitelist and AS loop, in this order. */
  function Admit(rules: Rules, prefix: Prefix, path: BgpPath): Option<ImportReject> {
    if path.nextHop.None? then Some(MissingNextHop)
    else if CoveredBySome(prefix, rules.bogons) then Some(Bogon(prefix))
    else if !CoveredBySome(prefix, rules.whitelist) then Some(NotInWhitelist(prefix))
    else if rules.ownAs in path.asPath then Some(AsLoop(rules.ownAs))
    else None
  }

  predicate Full(rules: Rules, accepted: nat) {
    rules.maxPrefixes.Some? && accepted >= rules.maxPrefixes.value
  }

  /** What the checks are for, said of address intervals. */
  predicate Clean(rules: Rules, prefix: Prefix, path: BgpPath) {
    && PathClean(rules, path)
    && WithinSome(prefix, rules.whitelist) && !WithinSome(prefix, rules.bogons)
  }

  predicate PathClean(rules: Rules, path: BgpPath) {
    path.nextHop.Some? && rules.ownAs !in path.asPath
  }

  /**
   * One IPv6 address whose verdict turns on `::/0`: as a bogon block it is overlooked, as a whitelisted one it does not
   * help.
   */
  predicate Misjudged(rules: Rules, prefix: Prefix) {
    if Stranded(prefix, rules.bogons) then WithinSome(prefix, rules.whitelist) && !Stranded(prefix, rules.whitelist)
    else Stranded(prefix, rules.whitelist) && !WithinSome(prefix, rules.bogons)
  }

  /** A route is admitted exactly when it is clean, unless its prefix is misjudged. */
  lemma AdmitExactly(rules: Rules, prefix: Prefix, path: BgpPath)
    ensures (Admit(rules, prefix, path).None? <==> Clean(rules, prefix, path))
       <==> !(PathClean(rules, path) && Misjudged(rules, prefix))
  {
    CoveredExactly(prefix, rules.whitelist);
    CoveredExactly(prefix, rules.bogons);
  }

  /** Every address of an admitted prefix is in one whitelisted block, so an empty whitelist admits nothing. */
  lemma AdmitMeans(rules: Rules, prefix: Prefix, path: BgpPath)
    requires Admit(rules, prefix, path).None?
    ensures PathClean(rules, path)
    ensures exists w :: w in rules.whitelist && AddressesIn(prefix, w)
    ensures forall b :: b in rules.bogons && AddressesIn(prefix, b) ==> Escapes(b, prefix)
  {
    CoveredExactly(prefix, rules.whitelist);
    var i :| 0 <= i < |rules.whitelist| && Includes(rules.whitelist[i], prefix);
    IncludesIsAddressInclusion(rules.whitelist[i], prefix);
    forall b | b in rules.bogons && AddressesIn(prefix, b) ensures Escapes(b, prefix) {
      IncludesIsAddressInclusion(b, prefix);
      ContainsIsIntervalInclusion(b, prefix);
      var j :| 0 <= j < |rules.bogons| && rules.bogons[j] == b;
      assert !IsCoveredBy(prefix, rules.bogons[j]);
    }
  }

  class ImportPolicy {
    const rules: Rules
    var accepted: nat

    constructor (rules: Rules)
      ensures this.rules == rules && accepted == 0
    {
      this.rules := rules;
      accepted := 0;
    }

    /** One more route, unless the limit is reached. */
    method NoteAccepted() returns (ok: bool)
      modifies this
      ensures ok == !Full(rules, old(accepted))
      ensures accepted == old(accepted) + if ok then 1 else 0
    {
      ok := !Full(rules, accepted);
      if ok { accepted := accepted + 1; }
    }

    /** One route less, never below zero. */
    method NoteWithdrawn()
      modifies this
      ensures accepted == if old(accepted) == 0 then 0 else old(accepted) - 1
    {
      if accepted > 0 { accepted := accepted - 1; }
    }
  }
}
