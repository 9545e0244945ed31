/** What a trade's condition codes allow it to do to the last sale price, taken by itself.
    The two tables are the "update last" columns of the CTA CTS Pillar Multicast Output Binary
    Specification v2.11b (Sale Condition field) and of the UTP Data Feed Services Specification v4.1,
    section 3.14.2. */
module TradeConditions {
  import opened Wrappers

  datatype Tape = A | B | C

  datatype Effect = YES | NO | FIRST_ONLY | NOTE3 | TBD

  function CtsLast(code: string): Option<Effect> {
    if code in {" ", "E", "F", "K", "O", "X", "5", "6", "9"} then Some(YES)
    else if code in {"B", "C", "H", "I", "M", "N", "Q", "R", "T", "U", "V", "7", "8"} then Some(NO)
    else if code in {"P", "Z", "4"} then Some(FIRST_ONLY)
    else if code == "L" then Some(NOTE3)
    else None
  }

  function UtpLast(code: string): Option<Effect> {
    if code in {"@", "A", "B", "D", "F", "K", "L", "O", "S", "X", "Y", "1", "5", "6", "9"} then Some(YES)
    else if code in {"C", "H", "I", "M", "N", "Q", "R", "T", "U", "V", "W", "7"} then Some(NO)
    else if code in {"G", "P", "Z", "4"} then Some(FIRST_ONLY)
    else if code in {"E", "8"} then Some(TBD)
    else None
  }

  function SpecTable(tape: Tape, code: string): Option<Effect> { if tape == C then UtpLast(code) else CtsLast(code) }

  /** How a provider's code is read on a tape. */
  datatype ProviderEntry = ProviderEntry(tape: Tape, providerCode: string, specCode: string, validated: bool)

  type ProviderCodeMap = map<(Tape, string), ProviderEntry>

  datatype RefReason =
    | NO_ELIGIBLE_TRADE
    | UNKNOWN_CONDITION
    | PROVIDER_MAPPING_UNVALIDATED
    | CALENDAR_UNCOVERED
    | AMBIGUOUS_ORDER

  datatype Translation = SpecCode(code: string) | NoSpecCode(reason: RefReason)

  /** An entry that is not validated is as good as none, but is told apart. */
  function Translate(m: ProviderCodeMap, tape: Tape, code: string): Translation {
    if (tape, code) !in m then NoSpecCode(UNKNOWN_CONDITION)
    else if !m[(tape, code)].validated then NoSpecCode(PROVIDER_MAPPING_UNVALIDATED)
    else SpecCode(m[(tape, code)].specCode)
  }

  /** What one provider code is known to mean. */
  datatype Reading = Known(effect: Effect) | Unreadable(unvalidated: bool)

  function Read(m: ProviderCodeMap, tape: Tape, code: string): (r: Reading)
    ensures r != Known(TBD)
  {
    match Translate(m, tape, code)
    case NoSpecCode(reason) => Unreadable(reason == PROVIDER_MAPPING_UNVALIDATED)
    case SpecCode(spec) =>
      match SpecTable(tape, spec)
      case None => Unreadable(false)
      case Some(e) => if e == TBD then Unreadable(false) else Known(e)
  }

  datatype Eligibility = ELIGIBLE | INELIGIBLE | CONDITIONAL(note3: bool) | UNDECIDED(reason: RefReason)

  /** The rule as the specifications word it: every condition must qualify, one NO disqualifies, and
      what cannot be read is never skipped. No order of the codes appears in it. */
  predicate SomeReading(m: ProviderCodeMap, tape: Tape, codes: seq<string>, r: Reading) {
    exists c | c in codes :: Read(m, tape, c) == r
  }

  function Eligible(m: ProviderCodeMap, tape: Tape, codes: seq<string>): Eligibility {
    if codes == [] then UNDECIDED(UNKNOWN_CONDITION)
    else if SomeReading(m, tape, codes, Known(NO)) then INELIGIBLE
    else if SomeReading(m, tape, codes, Unreadable(true)) then UNDECIDED(PROVIDER_MAPPING_UNVALIDATED)
    else if SomeReading(m, tape, codes, Unreadable(false)) then UNDECIDED(UNKNOWN_CONDITION)
    else if SomeReading(m, tape, codes, Known(NOTE3)) then CONDITIONAL(true)
    else if SomeReading(m, tape, codes, Known(FIRST_ONLY)) then CONDITIONAL(false)
    else ELIGIBLE
  }

  /** Of two reasons the one about validation wins, else the first. */
  function Worse(current: Option<RefReason>, reason: RefReason): Option<RefReason> {
    if current == Some(PROVIDER_MAPPING_UNVALIDATED) then current
    else if reason == PROVIDER_MAPPING_UNVALIDATED then Some(reason)
    else if current.Some? then current
    else Some(reason)
  }

  /** The one-pass scan computes the declarative rule. */
  method EvaluateConditions(tape: Tape, codes: seq<string>, m: ProviderCodeMap) returns (e: Eligibility)
    ensures e == Eligible(m, tape, codes)
  {
    hide SpecTable, SomeReading;
    var unknown: Option<RefReason> := None;
    var conditional, note3 := false, false;
    if |codes| == 0 {
      return UNDECIDED(UNKNOWN_CONDITION);
    }
    NothingRead(m, tape, codes[..0]);
    for i := 0 to |codes|
      invariant !SomeReading(m, tape, codes[..i], Known(NO))
      invariant note3 == SomeReading(m, tape, codes[..i], Known(NOTE3))
      invariant conditional == (note3 || SomeReading(m, tape, codes[..i], Known(FIRST_ONLY)))
      invariant unknown ==
                if SomeReading(m, tape, codes[..i], Unreadable(true)) then Some(PROVIDER_MAPPING_UNVALIDATED)
                else if SomeReading(m, tape, codes[..i], Unreadable(false)) then Some(UNKNOWN_CONDITION)
                else None
    {
      var code := codes[i];
      ScanOneMore(m, tape, codes, i);
      var tr := Translate(m, tape, code);
      if tr.NoSpecCode? {
        unknown := Worse(unknown, tr.reason);
        continue;
      }
      var effect := SpecTable(tape, tr.code);
      if effect.None? || effect.value == TBD {
        unknown := Worse(unknown, UNKNOWN_CONDITION);
      } else if effect.value == NO {
        Reads(m, tape, codes, i);
        return INELIGIBLE;
      } else if effect.value == FIRST_ONLY {
        conditional := true;
      } else if effect.value == NOTE3 {
        conditional, note3 := true, true;
      }
    }
    assert codes[..|codes|] == codes;
    if unknown.Some? {
      return UNDECIDED(unknown.value);
    }
    if conditional {
      return CONDITIONAL(note3);
    }
    return ELIGIBLE;
  }

  lemma NothingRead(m: ProviderCodeMap, tape: Tape, codes: seq<string>)
    requires codes == []
    ensures forall r :: !SomeReading(m, tape, codes, r)
  {
  }

  lemma Reads(m: ProviderCodeMap, tape: Tape, codes: seq<string>, i: nat)
    requires i < |codes|
    ensures SomeReading(m, tape, codes, Read(m, tape, codes[i]))
  {
  }

  lemma ScanOneMore(m: ProviderCodeMap, tape: Tape, codes: seq<string>, i: nat)
    requires i < |codes|
    ensures forall r :: SomeReading(m, tape, codes[..i + 1], r)
                    <==> SomeReading(m, tape, codes[..i], r) || Read(m, tape, codes[i]) == r
  {
    hide Read;
    assert codes[..i + 1] == codes[..i] + [codes[i]];
    forall r ensures SomeReading(m, tape, codes[..i + 1], r)
                 <==> SomeReading(m, tape, codes[..i], r) || Read(m, tape, codes[i]) == r
    {
      if SomeReading(m, tape, codes[..i], r) {
        var c :| c in codes[..i] && Read(m, tape, c) == r;
        assert c in codes[..i + 1];
      }
      assert codes[i] in codes[..i + 1];
    }
  }

  /** The order in which a provider lists the codes never matters, nor do repetitions. */
  lemma OrderOfCodesIsIrrelevant(m: ProviderCodeMap, tape: Tape, a: seq<string>, b: seq<string>)
    requires multiset(a) == multiset(b)
    ensures Eligible(m, tape, a) == Eligible(m, tape, b)
  {
    hide Read;
    assert |a| == |multiset(a)| == |multiset(b)| == |b|;
    forall c ensures c in a <==> c in b {
      assert c in a <==> c in multiset(a);
      assert c in b <==> c in multiset(b);
    }
    assert forall r :: SomeReading(m, tape, a, r) == SomeReading(m, tape, b, r);
  }

  // ----- information order

  /** n knows at least as much as m: every validated entry of m is a validated entry of n. */
  ghost predicate Refines(m: ProviderCodeMap, n: ProviderCodeMap) {
    forall k | k in m && m[k].validated :: k in n && n[k].validated && n[k].specCode == m[k].specCode
  }

  lemma ReadingsPersist(m: ProviderCodeMap, n: ProviderCodeMap, tape: Tape, code: string)
    requires Refines(m, n)
    ensures Read(m, tape, code).Known? ==> Read(n, tape, code) == Read(m, tape, code)
  {
    hide SpecTable;
  }

  /** Validating more of the map never changes a decided eligibility. */
  lemma EligibilityPersists(m: ProviderCodeMap, n: ProviderCodeMap, tape: Tape, codes: seq<string>)
    requires Refines(m, n) && !Eligible(m, tape, codes).UNDECIDED?
    ensures Eligible(n, tape, codes) == Eligible(m, tape, codes)
  {
    hide Read;
    forall c | c in codes ensures Read(m, tape, c).Known? ==> Read(n, tape, c) == Read(m, tape, c) {
      ReadingsPersist(m, n, tape, c);
    }
    if SomeReading(m, tape, codes, Known(NO)) {
      assert SomeReading(n, tape, codes, Known(NO));
    } else {
      forall c | c in codes ensures Read(m, tape, c).Known? {
        assert SomeReading(m, tape, codes, Read(m, tape, c));
      }
      assert forall r :: SomeReading(m, tape, codes, r) == SomeReading(n, tape, codes, r);
    }
  }

  // ----- two-valued meanings

  /** What a trade's conditions amount to once every code is understood. */
  datatype Definite = Qualifies | Disqualified | IfFirst | IfFirstOrListed

  /** A completion of the tables: some effect for every code, never TBD, agreeing with what is known. */
  ghost predicate Meaning(m: ProviderCodeMap, tape: Tape, meaning: string -> Effect) {
    forall c :: meaning(c) != TBD && (Read(m, tape, c).Known? ==> meaning(c) == Read(m, tape, c).effect)
  }

  predicate Says(codes: seq<string>, meaning: string -> Effect, e: Effect) { exists c | c in codes :: meaning(c) == e }

  function DefiniteOf(codes: seq<string>, meaning: string -> Effect): Definite {
    if Says(codes, meaning, NO) then Disqualified
    else if Says(codes, meaning, NOTE3) then IfFirstOrListed
    else if Says(codes, meaning, FIRST_ONLY) then IfFirst
    else Qualifies
  }

  /** d is a possible truth behind e. */
  predicate Possible(e: Eligibility, d: Definite) {
    match e
    case ELIGIBLE => d == Qualifies
    case INELIGIBLE => d == Disqualified
    case CONDITIONAL(note3) => d == if note3 then IfFirstOrListed else IfFirst
    case UNDECIDED(_) => true
  }

  /** Whatever the unreadable codes turn out to mean, the verdict on a trade allows for it. */
  lemma EligibilityIsSound(m: ProviderCodeMap, tape: Tape, codes: seq<string>, meaning: string -> Effect)
    requires Meaning(m, tape, meaning)
    ensures Possible(Eligible(m, tape, codes), DefiniteOf(codes, meaning))
  {
    hide Read;
    var e := Eligible(m, tape, codes);
    if SomeReading(m, tape, codes, Known(NO)) {
      assert Says(codes, meaning, NO);
    } else if !e.UNDECIDED? {
      forall c | c in codes ensures Read(m, tape, c) == Known(meaning(c)) {
        assert SomeReading(m, tape, codes, Read(m, tape, c));
      }
      forall x: Effect ensures Says(codes, meaning, x) == SomeReading(m, tape, codes, Known(x)) {
      }
    }
  }

  /** Reads every unreadable code as e. */
  function Filled(m: ProviderCodeMap, tape: Tape, e: Effect): string -> Effect {
    c => if Read(m, tape, c).Known? then Read(m, tape, c).effect else e
  }

  /** Undecided is never over-cautious: with at least one code there are two completions, one under
      which the trade is disqualified and one under which it is not. */
  lemma UndecidedIsExact(m: ProviderCodeMap, tape: Tape, codes: seq<string>)
    requires codes != [] && Eligible(m, tape, codes).UNDECIDED?
    ensures Meaning(m, tape, Filled(m, tape, NO)) && Meaning(m, tape, Filled(m, tape, YES))
    ensures DefiniteOf(codes, Filled(m, tape, NO)) == Disqualified
    ensures DefiniteOf(codes, Filled(m, tape, YES)) != Disqualified
  {
    hide Translate, SpecTable;
    var unvalidated := SomeReading(m, tape, codes, Unreadable(true));
    var c :| c in codes && Read(m, tape, c) == Unreadable(unvalidated);
    assert Filled(m, tape, NO)(c) == NO;
    forall d | d in codes ensures Filled(m, tape, YES)(d) != NO {
      assert SomeReading(m, tape, codes, Read(m, tape, d));
    }
  }
}
