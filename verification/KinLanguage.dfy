/**
 The first pass as a whole: the source's loop, the language it accepts, and what its result keeps
 of the transaction.
 */
module KinLanguage {
  import opened Common
  import opened Solana
  import opened SystemProgram
  import opened TokenProgram
  import opened MemoProgram
  import opened KinScan

  // ---------- the pass as a function

  function NonceAfter(nonce: Option<DecompiledAdvanceNonce>, x: Item): Option<DecompiledAdvanceNonce> {
    if x.NonceItem? then Some(x.nonce) else nonce
  }

  function ScanFrom(m: Message, i: nat, rs: seq<Region>, nonce: Option<DecompiledAdvanceNonce>):
    Result<Scanned, ParseError>
    requires InRange(m) && i <= |m.instructions| && |rs| > 0
    decreases |m.instructions| - i
  {
    if i == |m.instructions| then Ok(Scanned(rs, nonce))
    else
      var x := Next(m, i);
      if x.Err? then Err(x.error)
      else if x.value.NonceItem? && nonce.Some? then Err(MultipleNonces)
      else
        NextIsItem(m, i);
        ScanFrom(m, i + Width(x.value), Absorb(rs, x.value), NonceAfter(nonce, x.value))
  }

  // ---------- the source's loop

  /**
   The first pass of `ParseTransaction`. `i` is moved forward inside a turn, and back by one when
   the optional account holder is absent, exactly as the source does it.
   */
  method Scan(m: Message) returns (r: Result<Scanned, ParseError>)
    requires InRange(m)
    ensures r == ScanFrom(m, 0, [EMPTY_REGION], None)
  {
    var regions := [EMPTY_REGION];
    var nonce: Option<DecompiledAdvanceNonce> := None;
    var i := 0;
    ghost var whole := ScanFrom(m, 0, regions, nonce);
    while i < |m.instructions|
      invariant 0 <= i <= |m.instructions| && |regions| > 0
      invariant ScanFrom(m, i, regions, nonce) == whole
      decreases |m.instructions| - i
    {
      ghost var (start, before, was) := (i, regions, nonce);
      var stop: Option<ParseError>;
      stop, i, regions, nonce := ScanTurn(m, i, regions, nonce);
      TurnUnfolds(m, start, before, was);
      if stop.Some? {
        return Err(stop.value);
      }
      i := i + 1;
    }
    return Ok(Scanned(regions, nonce));
  }

  /** Why a turn at `i` ends the scan, if it does. */
  function StopAt(m: Message, i: nat, nonce: Option<DecompiledAdvanceNonce>): Option<ParseError>
    requires InRange(m) && i < |m.instructions|
  {
    match Next(m, i)
    case Err(e) => Some(e)
    case Ok(x) => if x.NonceItem? && nonce.Some? then Some(MultipleNonces) else None
  }

  /** A turn that does not end the scan has read a construct, and the scan goes on behind it. */
  lemma TurnUnfolds(m: Message, i: nat, rs: seq<Region>, nonce: Option<DecompiledAdvanceNonce>)
    requires InRange(m) && i < |m.instructions| && |rs| > 0
    ensures StopAt(m, i, nonce).Some? ==> ScanFrom(m, i, rs, nonce) == Err(StopAt(m, i, nonce).value)
    ensures StopAt(m, i, nonce).None? ==>
              var x := Next(m, i).value;
              && i + Width(x) <= |m.instructions|
              && ScanFrom(m, i, rs, nonce) == ScanFrom(m, i + Width(x), Absorb(rs, x), NonceAfter(nonce, x))
  {
    if Next(m, i).Ok? { NextIsItem(m, i); }
  }

  /** One turn of the loop; `last` is the index it leaves, before the loop's own increment. */
  method ScanTurn(m: Message, start: nat, before: seq<Region>, was: Option<DecompiledAdvanceNonce>)
    returns (stop: Option<ParseError>, last: int, regions: seq<Region>, nonce: Option<DecompiledAdvanceNonce>)
    requires InRange(m) && start < |m.instructions| && |before| > 0
    ensures stop == StopAt(m, start, was)
    ensures stop.None? ==>
              var x := Next(m, start).value;
              && last + 1 == start + Width(x) <= |m.instructions|
              && regions == Absorb(before, x) && nonce == NonceAfter(was, x)
  {
    last, nonce := start, was;
    if Program(m, start) == MemoProgram.PROGRAM_KEY {
      var memo := DecompileMemo(m, start);
      stop, regions := None, before + [EMPTY_REGION.(memoData := memo.value)];
    } else if Program(m, start) == SystemProgram.PROGRAM_KEY {
      stop, last, regions, nonce := ScanSystem(m, start, before, was);
    } else if Program(m, start) == ASSOCIATED_PROGRAM_KEY {
      stop, last, regions := ScanAssoc(m, start, before);
    } else if Program(m, start) == TokenProgram.PROGRAM_KEY {
      stop, regions := ScanToken(m, start, before);
    } else {
      stop, regions := Some(UnknownProgram), before;
    }
  }

  /** The system program branch: a nonce, or an account creation. */
  method ScanSystem(m: Message, start: nat, before: seq<Region>, was: Option<DecompiledAdvanceNonce>)
    returns (stop: Option<ParseError>, last: int, regions: seq<Region>, nonce: Option<DecompiledAdvanceNonce>)
    requires InRange(m) && start < |m.instructions| && |before| > 0
    ensures stop == match NextSystem(m, start)
                    case Err(e) => Some(e)
                    case Ok(x) => if x.NonceItem? && was.Some? then Some(MultipleNonces) else None
    ensures stop.None? ==>
              var x := NextSystem(m, start).value;
              && last + 1 == start + Width(x) <= |m.instructions|
              && regions == Absorb(before, x) && nonce == NonceAfter(was, x)
  {
    nonce := was;
    var advance := DecompileAdvanceNonce(m, start);
    if advance.Ok? {
      if was.Some? {
        return Some(MultipleNonces), start, before, was;
      }
      return None, start, before, Some(advance.value);
    }
    stop, last, regions := ScanCreate(m, start, before);
  }

  /** The last creation of the last region, with its account holder filled in. */
  function WithHolder(rs: seq<Region>, holder: DecompiledSetAuthority): seq<Region>
    requires |rs| > 0 && |rs[|rs| - 1].creations| > 0
  {
    var (n, made) := (|rs| - 1, rs[|rs| - 1].creations);
    rs[n := rs[n].(creations := made[|made| - 1 := made[|made| - 1].(accountHolder := Some(holder))])]
  }

  /** The optional account holder of the creation just added; `last` is as in `ScanCreate`. */
  method ScanHolder(m: Message, start: nat, address: Key, before: seq<Region>)
    returns (stop: Option<ParseError>, last: int, regions: seq<Region>)
    requires InRange(m) && 0 < start <= |m.instructions| && |before| > 0 && |before[|before| - 1].creations| > 0
    ensures stop == match HolderFor(m, start, address) case Err(e) => Some(e) case Ok(_) => None
    ensures stop.None? ==>
              var holder := HolderFor(m, start, address).value;
              && last + 1 == (if holder.Some? then start + 1 else start) <= |m.instructions|
              && regions == if holder.Some? then WithHolder(before, holder.value) else before
  {
    var i := start;
    regions := before;
    if i == |m.instructions| {
      return None, i - 1, regions;
    }
    var accountHolder := DecompileSetAuthority(m, i);
    if accountHolder.Err? {
      i := i - 1;
      return None, i, regions;
    }
    if accountHolder.value.authorityType != AUTHORITY_ACCOUNT_HOLDER {
      return Some(NotAccountHolder), i, regions;
    }
    if accountHolder.value.account != address {
      return Some(AccountHolderMismatch), i, regions;
    }
    var n := |regions| - 1;
    var lastIdx := |regions[n].creations| - 1;
    var updated := regions[n].creations[lastIdx].(accountHolder := Some(accountHolder.value));
    regions := regions[n := regions[n].(creations := regions[n].creations[lastIdx := updated])];
    return None, i, regions;
  }

  /** The `CreateAccount` branch; `last` is the index it leaves, before the loop's own increment. */
  method ScanCreate(m: Message, start: nat, before: seq<Region>)
    returns (stop: Option<ParseError>, last: int, regions: seq<Region>)
    requires InRange(m) && start < |m.instructions| && |before| > 0
    ensures stop == match NextCreate(m, start) case Err(e) => Some(e) case Ok(_) => None
    ensures stop.None? ==>
              var x := NextCreate(m, start).value;
              last + 1 == start + Width(x) <= |m.instructions| && regions == Absorb(before, x)
  {
    var i := start;
    last, regions := start, before;
    var creation := DecompileCreateAccount(m, i);
    if creation.Err? {
      return Some(InvalidCreateAccount), last, regions;
    }
    if creation.value.owner != TokenProgram.PROGRAM_KEY {
      return Some(WrongCreateOwner), last, regions;
    }
    if creation.value.size != ACCOUNT_SIZE {
      return Some(WrongCreateSize), last, regions;
    }
    i := i + 1;
    if i == |m.instructions| {
      return Some(MissingInitialize), last, regions;
    }
    var initialize := DecompileInitializeAccount(m, i);
    if initialize.Err? {
      return Some(InvalidInitialize), last, regions;
    }
    if creation.value.address != initialize.value.account {
      return Some(InitializeMismatch), last, regions;
    }
    i := i + 1;
    if i == |m.instructions| {
      return Some(MissingSetAuthority), last, regions;
    }
    var closeAuthority := DecompileSetAuthority(m, i);
    if closeAuthority.Err? {
      return Some(InvalidSetAuthority), last, regions;
    }
    if closeAuthority.value.authorityType != AUTHORITY_CLOSE_ACCOUNT {
      return Some(NotCloseAuthority), last, regions;
    }
    if closeAuthority.value.account != creation.value.address {
      return Some(CloseAuthorityMismatch), last, regions;
    }
    var n := |regions| - 1;
    regions := regions[n := regions[n].(creations := regions[n].creations +
        [Creation(Some(creation.value), Some(initialize.value), None, closeAuthority.value, None)])];

    stop, last, regions := ScanHolder(m, i + 1, creation.value.address, regions);
    assert stop.None? ==> regions[n].creations == before[n].creations + [CreationOf(NextCreate(m, start).value)];
  }

  method ScanAssoc(m: Message, start: nat, before: seq<Region>)
    returns (stop: Option<ParseError>, last: int, regions: seq<Region>)
    requires InRange(m) && start < |m.instructions| && |before| > 0
    ensures stop == match NextAssoc(m, start) case Err(e) => Some(e) case Ok(_) => None
    ensures stop.None? ==>
              var x := NextAssoc(m, start).value;
              last + 1 == start + Width(x) <= |m.instructions| && regions == Absorb(before, x)
  {
    var i := start;
    last, regions := start, before;
    var create := DecompileCreateAssociatedAccount(m, i);
    if create.Err? {
      return Some(InvalidCreateAssociated), last, regions;
    }
    i := i + 1;
    if i == |m.instructions| {
      return Some(MissingSetAuthority), last, regions;
    }
    var closeAuthority := DecompileSetAuthority(m, i);
    if closeAuthority.Err? {
      return Some(InvalidSetAuthority), last, regions;
    }
    if closeAuthority.value.authorityType != AUTHORITY_CLOSE_ACCOUNT {
      return Some(NotCloseAuthority), last, regions;
    }
    if closeAuthority.value.account != create.value.address {
      return Some(CloseAuthorityMismatch), last, regions;
    }
    var n := |regions| - 1;
    regions := regions[n := regions[n].(creations := regions[n].creations +
        [Creation(None, None, Some(create.value), closeAuthority.value, None)])];
    return None, i, regions;
  }

  method ScanToken(m: Message, i: nat, before: seq<Region>) returns (stop: Option<ParseError>, regions: seq<Region>)
    requires InRange(m) && i < |m.instructions| && |before| > 0
    ensures stop == match NextToken(m, i) case Err(e) => Some(e) case Ok(_) => None
    ensures stop.None? ==> Width(NextToken(m, i).value) == 1 && regions == Absorb(before, NextToken(m, i).value)
  {
    regions := before;
    var n := |regions| - 1;
    var cmd := GetCommand(m, i);
    if cmd == Ok(COMMAND_TRANSFER) {
      var transfer := DecompileTransfer(m, i);
      if transfer.Err? {
        return Some(InvalidTransfer), regions;
      }
      if transfer.value.owner == m.accounts[0] {
        return Some(SubsidizerTransfer), regions;
      }
      regions := regions[n := regions[n].(transfers := regions[n].transfers + [transfer.value])];
    } else if cmd == Ok(COMMAND_CLOSE_ACCOUNT) {
      var closure := DecompileCloseAccount(m, i);
      if closure.Err? {
        return Some(InvalidCloseAccount), regions;
      }
      regions := regions[n := regions[n].(closures := regions[n].closures + [closure.value])];
    } else {
      return Some(UnsupportedInstruction), regions;
    }
    return None, regions;
  }

  // ---------- the language

  function NonceList(nonce: Option<DecompiledAdvanceNonce>): seq<DecompiledAdvanceNonce> {
    if nonce.Some? then [nonce.value] else []
  }

  /** What a scan makes of a list of constructs, whatever message they stand in. */
  function Outcome(rs: seq<Region>, nonce: Option<DecompiledAdvanceNonce>, xs: seq<Item>): Result<Scanned, ParseError>
    requires |rs| > 0
    decreases |xs|
  {
    if xs == [] then Ok(Scanned(rs, nonce))
    else if xs[0].NonceItem? && nonce.Some? then Err(MultipleNonces)
    else Outcome(Absorb(rs, xs[0]), NonceAfter(nonce, xs[0]), xs[1..])
  }

  /** One nonce at most, and then every construct is absorbed in turn. */
  lemma {:induction false} OutcomeIs(rs: seq<Region>, nonce: Option<DecompiledAdvanceNonce>, xs: seq<Item>)
    requires |rs| > 0
    ensures var out := Outcome(rs, nonce, xs);
            && (out.Ok? <==> |NonceList(nonce) + Nonces(xs)| <= 1)
            && (out.Ok? ==> out.value.regions == AbsorbAll(rs, xs))
            && (out.Ok? ==> NonceList(out.value.nonce) == NonceList(nonce) + Nonces(xs))
    decreases |xs|
  {
    if xs != [] && !(xs[0].NonceItem? && nonce.Some?) {
      OutcomeIs(Absorb(rs, xs[0]), NonceAfter(nonce, xs[0]), xs[1..]);
    }
  }

  lemma ScanUnfolds(m: Message, i: nat, rs: seq<Region>, nonce: Option<DecompiledAdvanceNonce>, x: Item)
    requires InRange(m) && |rs| > 0 && i + Width(x) <= |m.instructions| && Next(m, i) == Ok(x)
    ensures ScanFrom(m, i, rs, nonce) ==
            if x.NonceItem? && nonce.Some? then Err(MultipleNonces)
            else ScanFrom(m, i + Width(x), Absorb(rs, x), NonceAfter(nonce, x))
  {
  }

  /** The scan of a derivable message is the outcome of its derivation. */
  lemma {:induction false} ScanIsComplete(m: Message, i: nat, rs: seq<Region>, nonce: Option<DecompiledAdvanceNonce>,
                                          xs: seq<Item>)
    requires InRange(m) && i <= |m.instructions| && |rs| > 0 && Derives(m, i, xs)
    ensures ScanFrom(m, i, rs, nonce) == Outcome(rs, nonce, xs)
    decreases |xs|
  {
    HeadIsNext(m, i, xs);
    if xs != [] {
      ScanUnfolds(m, i, rs, nonce, xs[0]);
      if !(xs[0].NonceItem? && nonce.Some?) {
        ScanIsComplete(m, i + Width(xs[0]), Absorb(rs, xs[0]), NonceAfter(nonce, xs[0]), xs[1..]);
      }
    }
  }

  lemma ScanStep(m: Message, i: nat, rs: seq<Region>, nonce: Option<DecompiledAdvanceNonce>) returns (x: Item)
    requires InRange(m) && i < |m.instructions| && |rs| > 0
    requires ScanFrom(m, i, rs, nonce).Ok?
    ensures ItemAt(m, i, x) && i + Width(x) <= |m.instructions|
    ensures ScanFrom(m, i, rs, nonce) == ScanFrom(m, i + Width(x), Absorb(rs, x), NonceAfter(nonce, x))
  {
    NextIsItem(m, i);
    x := Next(m, i).value;
  }

  lemma DerivesStep(m: Message, i: nat, x: Item, rest: seq<Item>)
    requires InRange(m) && ItemAt(m, i, x) && Derives(m, i + Width(x), rest)
    ensures Derives(m, i, [x] + rest)
  {
    assert ([x] + rest)[1..] == rest;
  }

  /** Whatever the scan accepts has a derivation. */
  lemma {:induction false} ScanIsSound(m: Message, i: nat, rs: seq<Region>, nonce: Option<DecompiledAdvanceNonce>)
    returns (xs: seq<Item>)
    requires InRange(m) && i <= |m.instructions| && |rs| > 0
    requires ScanFrom(m, i, rs, nonce).Ok?
    ensures Derives(m, i, xs)
    decreases |m.instructions| - i
  {
    if i == |m.instructions| {
      xs := [];
    } else {
      var x := ScanStep(m, i, rs, nonce);
      var rest := ScanIsSound(m, i + Width(x), Absorb(rs, x), NonceAfter(nonce, x));
      xs := [x] + rest;
      DerivesStep(m, i, x, rest);
    }
  }

  /**
   The scan accepts exactly the transactions that are a sequence of memos, at most one nonce,
   account creations, transfers and closures, and returns the regions and the nonce of its derivation.
   */
  lemma ScanAcceptsExactly(m: Message)
    requires InRange(m)
    ensures ScanFrom(m, 0, [EMPTY_REGION], None).Ok? <==> exists xs :: Derives(m, 0, xs) && |Nonces(xs)| <= 1
    ensures forall xs :: Derives(m, 0, xs) && |Nonces(xs)| <= 1 ==>
              var out := ScanFrom(m, 0, [EMPTY_REGION], None);
              out.Ok? && out.value.regions == RegionsOf(xs) && NonceList(out.value.nonce) == Nonces(xs)
  {
    var out := ScanFrom(m, 0, [EMPTY_REGION], None);
    if out.Ok? {
      var xs := ScanIsSound(m, 0, [EMPTY_REGION], None);
      DerivedOutcome(m, xs);
    }
    forall xs | Derives(m, 0, xs) && |Nonces(xs)| <= 1
      ensures out.Ok? && out.value.regions == RegionsOf(xs) && NonceList(out.value.nonce) == Nonces(xs)
    {
      DerivedOutcome(m, xs);
    }
  }

  lemma DerivedOutcome(m: Message, xs: seq<Item>)
    requires InRange(m) && Derives(m, 0, xs)
    ensures var out := ScanFrom(m, 0, [EMPTY_REGION], None);
            && (out.Ok? <==> |Nonces(xs)| <= 1)
            && (out.Ok? ==> out.value.regions == RegionsOf(xs) && NonceList(out.value.nonce) == Nonces(xs))
  {
    ScanIsComplete(m, 0, [EMPTY_REGION], None, xs);
    OutcomeIs([EMPTY_REGION], None, xs);
    assert NonceList(None) + Nonces(xs) == Nonces(xs);
  }
}
