/** The checks around a session execute: program restrictions and snapshots
    before the CPIs, spending limits and counter updates after them. */
module Evaluate {
  import opened Bytes
  import opened Prelude
  import opened Actions
  import opened Rules
  import opened Validation
  import opened Limits
  import opened Compact

  const SESSION_HEADER_SIZE: nat := 80

  /** The session account stores exactly these rules behind its header. */
  predicate Stores(sessionData: seq<byte>, rs: seq<Rule>) {
    && |rs| <= MAX_ACTIONS && Windowed(rs)
    && if |sessionData| > SESSION_HEADER_SIZE then sessionData[SESSION_HEADER_SIZE..] == EncodeRules(rs) else rs == []
  }

  predicate HasActions(sessionData: seq<byte>) {
    |sessionData| > SESSION_HEADER_SIZE
  }

  /** Parsing a stored rule list succeeds and shows its rules. */
  method ParseStored(actionsBuf: seq<byte>, ghost rs: seq<Rule>) returns (r: Result<seq<ActionView>>)
    requires actionsBuf == EncodeRules(rs) && |rs| <= MAX_ACTIONS
    ensures r.Ok? && ShowsAll(actionsBuf, r.value, rs)
  {
    r := ParseActions(actionsBuf);
    ParsedRules(actionsBuf, if r.Ok? then r.value else [], rs);
  }

  // ---------------------------------------------------------------------
  // Program restrictions

  /** Some unexpired rule with tag `t` names the program. */
  predicate Listed(rs: seq<Rule>, t: ActionType, program: Pubkey, slot: u64) {
    exists i :: 0 <= i < |rs| && Names(rs[i], t, program, slot)
  }

  predicate Names(r: Rule, t: ActionType, program: Pubkey, slot: u64) {
    Tag(r) == t && Key(r) == program && !Expired(r, slot)
  }

  predicate Whitelisted(rs: seq<Rule>, program: Pubkey, slot: u64) {
    Listed(rs, ProgramWhitelist, program, slot)
  }

  predicate Blacklisted(rs: seq<Rule>, program: Pubkey, slot: u64) {
    Listed(rs, ProgramBlacklist, program, slot)
  }

  predicate HasWhitelist(rs: seq<Rule>) {
    exists i :: 0 <= i < |rs| && rs[i].Allow?
  }

  predicate Permitted(rs: seq<Rule>, program: Pubkey, slot: u64) {
    (HasWhitelist(rs) ==> Whitelisted(rs, program, slot)) && !Blacklisted(rs, program, slot)
  }

  /** What the pre-check says about one instruction; errors in the order they are tested. */
  function PreCheck(rs: seq<Rule>, ix: CompactInstruction, accounts: seq<AccountInfo>, slot: u64): Result<()> {
    if ix.programIdIndex >= |accounts| then Err(InvalidInstructionData)
    else
      var program := accounts[ix.programIdIndex].key;
      if HasWhitelist(rs) && !Whitelisted(rs, program, slot) then Err(ActionProgramNotWhitelisted)
      else if Blacklisted(rs, program, slot) then Err(ActionProgramBlacklisted)
      else Ok(())
  }

  predicate FirstFailure(rs: seq<Rule>, ixs: seq<CompactInstruction>, accounts: seq<AccountInfo>, slot: u64, i: nat) {
    && i < |ixs| && PreCheck(rs, ixs[i], accounts, slot).Err?
    && forall k :: 0 <= k < i ==> PreCheck(rs, ixs[k], accounts, slot).Ok?
  }

  /** The programs of the unexpired rules with tag `t`, in order. */
  function Programs(rs: seq<Rule>, t: ActionType, slot: u64): seq<Pubkey>
    requires t.ProgramWhitelist? || t.ProgramBlacklist?
  {
    if rs == [] then []
    else
      var r := rs[|rs| - 1];
      Programs(rs[..|rs| - 1], t, slot) + if Tag(r) == t && !Expired(r, slot) then [Key(r)] else []
  }

  lemma {:induction false} ProgramsListed(rs: seq<Rule>, t: ActionType, slot: u64, p: Pubkey)
    requires t.ProgramWhitelist? || t.ProgramBlacklist?
    ensures p in Programs(rs, t, slot) <==> Listed(rs, t, p, slot)
  {
    if rs == [] {
    } else {
      var n := |rs| - 1;
      var a := rs[..n];
      ProgramsListed(a, t, slot, p);
      hide Names;
      if Listed(rs, t, p, slot) {
        var i :| 0 <= i < |rs| && Names(rs[i], t, p, slot);
        assert i < n ==> a[i] == rs[i];
      }
      if Listed(a, t, p, slot) {
        var i :| 0 <= i < n && Names(a[i], t, p, slot);
        assert rs[i] == a[i];
      }
      LastNamed(rs, t, slot, p);
    }
  }

  lemma LastNamed(rs: seq<Rule>, t: ActionType, slot: u64, p: Pubkey)
    requires rs != [] && (t.ProgramWhitelist? || t.ProgramBlacklist?)
    ensures p in Programs(rs, t, slot) <==>
      p in Programs(rs[..|rs| - 1], t, slot) || Names(rs[|rs| - 1], t, p, slot)
  {
  }

  lemma ProgramsStep(rs: seq<Rule>, n: nat, t: ActionType, slot: u64)
    requires n < |rs| && (t.ProgramWhitelist? || t.ProgramBlacklist?)
    ensures Programs(rs[..n + 1], t, slot) ==
      Programs(rs[..n], t, slot) + if Tag(rs[n]) == t && !Expired(rs[n], slot) then [Key(rs[n])] else []
  {
    assert rs[..n + 1][..n] == rs[..n] && rs[..n + 1][n] == rs[n];
  }

  lemma ShownView(buf: seq<byte>, views: seq<ActionView>, rs: seq<Rule>, n: nat)
    requires ShowsAll(buf, views, rs) && n < |rs|
    ensures views[n].actionType == Tag(rs[n]) && (Tag(rs[n]) == ProgramWhitelist <==> rs[n].Allow?)
    ensures views[n].expiresAt == rs[n].expiresAt
    ensures views[n].dataOffset + KeyLen(Tag(rs[n])) <= |buf|
    ensures buf[views[n].dataOffset..views[n].dataOffset + KeyLen(Tag(rs[n]))] == Key(rs[n])
  {
    assert Shows(buf, views[n], rs[n]);
    ShownKey(buf, views[n], rs[n]);
  }

  lemma WhitelistStep(rs: seq<Rule>, n: nat)
    requires n < |rs|
    ensures HasWhitelist(rs[..n + 1]) <==> HasWhitelist(rs[..n]) || rs[n].Allow?
  {
    assert rs[..n + 1][n] == rs[n] && forall i :: 0 <= i < n ==> rs[..n + 1][i] == rs[..n][i];
  }

  lemma NoProgramsYet(rs: seq<Rule>, slot: u64)
    ensures Programs(rs[..0], ProgramWhitelist, slot) == [] && Programs(rs[..0], ProgramBlacklist, slot) == []
    ensures !HasWhitelist(rs[..0])
  {
  }

  /** One pass collects the unexpired ids of both lists, and whether a whitelist
      rule was ever stored. */
  method CollectPrograms(buf: seq<byte>, views: seq<ActionView>, slot: u64, ghost rs: seq<Rule>)
    returns (whitelisted: seq<Pubkey>, blacklisted: seq<Pubkey>, hasAnyWhitelistAction: bool)
    requires ShowsAll(buf, views, rs)
    ensures whitelisted == Programs(rs, ProgramWhitelist, slot)
    ensures blacklisted == Programs(rs, ProgramBlacklist, slot)
    ensures hasAnyWhitelistAction <==> HasWhitelist(rs)
  {
    whitelisted, blacklisted, hasAnyWhitelistAction := [], [], false;
    NoProgramsYet(rs, slot);
    assert |views| == |rs|;
    hide ShowsAll, Programs, HasWhitelist, Key, Tag;
    for n := 0 to |views|
      invariant whitelisted == Programs(rs[..n], ProgramWhitelist, slot)
      invariant blacklisted == Programs(rs[..n], ProgramBlacklist, slot)
      invariant hasAnyWhitelistAction <==> HasWhitelist(rs[..n])
    {
      var view := views[n];
      ShownView(buf, views, rs, n);
      ProgramsStep(rs, n, ProgramWhitelist, slot);
      ProgramsStep(rs, n, ProgramBlacklist, slot);
      WhitelistStep(rs, n);
      if view.actionType == ProgramWhitelist {
        hasAnyWhitelistAction := true;
        if !ViewExpired(view, slot) {
          whitelisted := whitelisted + [buf[view.dataOffset..view.dataOffset + 32]];
        }
      } else if view.actionType == ProgramBlacklist {
        if !ViewExpired(view, slot) {
          blacklisted := blacklisted + [buf[view.dataOffset..view.dataOffset + 32]];
        }
      }
    }
    assert rs[..|views|] == rs;
  }

  predicate ViewExpired(view: ActionView, slot: u64) {
    view.expiresAt != 0 && slot > view.expiresAt
  }

  /** Passes exactly when every instruction names a permitted program; otherwise
      reports the first instruction that fails. */
  method EvaluatePreActions(sessionData: seq<byte>, ixs: seq<CompactInstruction>, accounts: seq<AccountInfo>,
                            currentSlot: u64, ghost rs: seq<Rule>) returns (r: Result<()>)
    requires Stores(sessionData, rs)
    ensures HasActions(sessionData) ==>
      (r.Ok? <==> forall i :: 0 <= i < |ixs| ==> PreCheck(rs, ixs[i], accounts, currentSlot).Ok?)
    ensures r.Err? ==> exists i: nat ::
      FirstFailure(rs, ixs, accounts, currentSlot, i) && PreCheck(rs, ixs[i], accounts, currentSlot) == r
    ensures !HasActions(sessionData) ==> r.Ok?
  {
    if !HasActions(sessionData) { return Ok(()); }
    var actionsBuf := sessionData[SESSION_HEADER_SIZE..];
    var actions := ParseStored(actionsBuf, rs);
    var whitelisted, blacklisted, hasAnyWhitelistAction := CollectPrograms(actionsBuf, actions.value, currentSlot, rs);
    r := CheckPrograms(whitelisted, blacklisted, hasAnyWhitelistAction, ixs, accounts, currentSlot, rs);
  }

  method CheckPrograms(whitelisted: seq<Pubkey>, blacklisted: seq<Pubkey>, hasAnyWhitelistAction: bool,
                       ixs: seq<CompactInstruction>, accounts: seq<AccountInfo>, currentSlot: u64, ghost rs: seq<Rule>)
    returns (r: Result<()>)
    requires whitelisted == Programs(rs, ProgramWhitelist, currentSlot)
    requires blacklisted == Programs(rs, ProgramBlacklist, currentSlot)
    requires hasAnyWhitelistAction <==> HasWhitelist(rs)
    ensures r.Ok? <==> forall i :: 0 <= i < |ixs| ==> PreCheck(rs, ixs[i], accounts, currentSlot).Ok?
    ensures r.Err? ==> exists i: nat ::
      FirstFailure(rs, ixs, accounts, currentSlot, i) && PreCheck(rs, ixs[i], accounts, currentSlot) == r
  {
    hide Listed, Programs, HasWhitelist;
    for n := 0 to |ixs|
      invariant forall i :: 0 <= i < n ==> PreCheck(rs, ixs[i], accounts, currentSlot).Ok?
    {
      assert PreCheck(rs, ixs[n], accounts, currentSlot).Err? ==> FirstFailure(rs, ixs, accounts, currentSlot, n);
      var progIdx := ixs[n].programIdIndex;
      if progIdx >= |accounts| { return Err(InvalidInstructionData); }
      var targetProgram := accounts[progIdx].key;
      ProgramsListed(rs, ProgramWhitelist, currentSlot, targetProgram);
      ProgramsListed(rs, ProgramBlacklist, currentSlot, targetProgram);
      if hasAnyWhitelistAction && targetProgram !in whitelisted {
        return Err(ActionProgramNotWhitelisted);
      }
      if targetProgram in blacklisted {
        return Err(ActionProgramBlacklisted);
      }
    }
    return Ok(());
  }

  /** The permitted programs of a session with whitelist rules only shrink as
      slots pass, down to none once every whitelist rule has expired; those of a
      session with blacklist rules only grow. */
  lemma PermissionsOverTime(rs: seq<Rule>, program: Pubkey, early: u64, late: u64)
    requires early <= late && !Mixed(rs)
    ensures HasWhitelist(rs) && Permitted(rs, program, late) ==> Permitted(rs, program, early)
    ensures !HasWhitelist(rs) && Permitted(rs, program, early) ==> Permitted(rs, program, late)
    ensures HasWhitelist(rs) && (forall i :: 0 <= i < |rs| && rs[i].Allow? ==> Expired(rs[i], late))
      ==> !Permitted(rs, program, late)
  {
    if HasWhitelist(rs) {
      assert forall i :: 0 <= i < |rs| ==> !rs[i].Deny?;
    } else {
      assert forall i :: 0 <= i < |rs| ==> !rs[i].Allow?;
      forall i | 0 <= i < |rs| && rs[i].Deny? && !Expired(rs[i], late) ensures !Expired(rs[i], early) { }
    }
  }
}
