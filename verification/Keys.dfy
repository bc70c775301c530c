/**
 Token signing keys: the stored rows and the copy each process verifies with
 (`server/src/app.rs`, `server/src/db/repo.rs`).

 Times are seconds.  A token's `until` is the last second it can be accepted: its expiry and
 the clock skew allowed.
 */
module SigningKeys {
  import opened Bytes

  type Kid = string

  datatype Row = Row(created: int, active: bool, notAfter: Option<int>)
  {
    predicate Expired(now: int) { !active && notAfter.Some? && notAfter.value < now }
  }

  datatype Loaded = Loaded(created: int, active: bool)

  datatype Token = Token(kid: Kid, until: int)

  type Rows = map<Kid, Row>
  type Keys = map<Kid, Loaded>

  /** A key that is retired stays verifiable until its overlap has run out. */
  function Outgoing(row: Row, now: int, overlap: nat): Row {
    if row.active then Row(row.created, false, Some(now + overlap)) else row
  }

  /** `insert_signing_key`: both statements, or neither when the kid is taken. */
  function Inserted(rows: Rows, kid: Kid, now: int, overlap: nat): Option<Rows> {
    if kid in rows then None
    else Some((map k | k in rows :: Outgoing(rows[k], now, overlap))[kid := Row(now, true, None)])
  }

  function Pruned(rows: Rows, now: int): Rows {
    map k | k in rows && !rows[k].Expired(now) :: rows[k]
  }

  function Load(rows: Rows, now: int): Keys {
    map k | k in rows && !rows[k].Expired(now) :: Loaded(rows[k].created, rows[k].active)
  }

  predicate AnyActive(rows: Rows) { exists k :: k in rows && rows[k].active }

  function Passive(keys: Keys): Keys { map k | k in keys :: keys[k].(active := false) }

  /** `refresh`: what is stored and what is loaded after it, or nothing when its insert fails. */
  function Refreshed(rows: Rows, kid: Kid, now: int, overlap: nat): Option<(Rows, Keys)> {
    if AnyActive(rows) then Some((rows, Load(rows, now)))
    else match Inserted(rows, kid, now, overlap)
      case None => None
      case Some(after) => Some((after, Passive(Load(rows, now))[kid := Loaded(now, true)]))
  }

  // ------------------------------------------------------------------------ a whole run

  datatype State = State(rows: Rows, keys: Keys, now: int)

  datatype Step =
    | Tick(seconds: nat)
    | Insert(kid: Kid, overlap: nat)        // the first half of a rotation
    | Refresh(kid: Kid, overlap: nat)       // the second, or a restart
    | Prune
    | Mint(life: nat)

  function Stepped(s: State, step: Step): State {
    match step
    case Tick(n) => s.(now := s.now + n)
    case Insert(kid, overlap) =>
      (match Inserted(s.rows, kid, s.now, overlap) case None => s case Some(r) => s.(rows := r))
    case Refresh(kid, overlap) =>
      (match Refreshed(s.rows, kid, s.now, overlap) case None => s case Some(p) => State(p.0, p.1, s.now))
    case Prune => s.(rows := Pruned(s.rows, s.now))
    case Mint(_) => s
  }

  /** `mint` signs with the key this process thinks is active. */
  predicate Signs(s: State, kid: Kid) { kid in s.keys && s.keys[kid].active }

  /** The stored key outlives the token, as far as the stored rows say now. */
  predicate Covered(rows: Rows, t: Token) {
    t.kid in rows && (rows[t.kid].active || (rows[t.kid].notAfter.Some? && t.until <= rows[t.kid].notAfter.value))
  }

  /** The tokens a step mints, of those whose key outlives them. */
  function Minted(s: State, step: Step): set<Token> {
    if step.Mint? then
      set k | k in s.keys && s.keys[k].active && Covered(s.rows, Token(k, s.now + step.life)) ::
        Token(k, s.now + step.life)
    else {}
  }

  function Run(s: State, steps: seq<Step>): State
    decreases |steps|
  {
    if steps == [] then s else Run(Stepped(s, steps[0]), steps[1..])
  }

  function Tokens(s: State, steps: seq<Step>): set<Token>
    decreases |steps|
  {
    if steps == [] then {} else Minted(s, steps[0]) + Tokens(Stepped(s, steps[0]), steps[1..])
  }

  // ---------------------------------------------------------------- one active key

  ghost predicate OneActive(rows: Rows) {
    && (forall a, b | a in rows && b in rows && rows[a].active && rows[b].active :: a == b)
    && (forall k | k in rows && !rows[k].active :: rows[k].notAfter.Some?)
  }

  ghost predicate OneLoaded(keys: Keys) {
    forall a, b | a in keys && b in keys && keys[a].active && keys[b].active :: a == b
  }

  ghost predicate Sound(s: State) {
    OneActive(s.rows) && OneLoaded(s.keys) && (s.keys != map[] ==> AnyActive(s.rows))
  }

  lemma InsertedIsActive(rows: Rows, kid: Kid, now: int, overlap: nat)
    requires OneActive(rows) && kid !in rows
    ensures OneActive(Inserted(rows, kid, now, overlap).value) && AnyActive(Inserted(rows, kid, now, overlap).value)
  {
    var after := Inserted(rows, kid, now, overlap).value;
    assert kid in after && after[kid].active;
  }

  lemma PruneKeepsActive(rows: Rows, now: int)
    ensures AnyActive(Pruned(rows, now)) <==> AnyActive(rows)
  {
    forall k | k in rows && rows[k].active
      ensures k in Pruned(rows, now) && Pruned(rows, now)[k].active
    {
    }
    forall k | k in Pruned(rows, now)
      ensures k in rows && Pruned(rows, now)[k] == rows[k]
    {
    }
  }

  lemma StepStaysSound(s: State, step: Step)
    requires Sound(s)
    ensures Sound(Stepped(s, step))
    ensures AnyActive(s.rows) ==> AnyActive(Stepped(s, step).rows)
  {
    match step
    case Tick(_) =>
    case Mint(_) =>
    case Prune => PruneKeepsActive(s.rows, s.now);
    case Insert(kid, overlap) =>
      if kid !in s.rows {
        InsertedIsActive(s.rows, kid, s.now, overlap);
      }
    case Refresh(kid, overlap) =>
      if !AnyActive(s.rows) && kid !in s.rows {
        InsertedIsActive(s.rows, kid, s.now, overlap);
      }
  }

  /** Never two active keys, and exactly one from the first that is loaded on, through any run. */
  lemma {:induction false} RunsStaySound(s: State, steps: seq<Step>)
    requires Sound(s)
    ensures Sound(Run(s, steps))
    ensures AnyActive(s.rows) ==> AnyActive(Run(s, steps).rows)
    decreases |steps|
  {
    if steps != [] {
      StepStaysSound(s, steps[0]);
      RunsStaySound(Stepped(s, steps[0]), steps[1..]);
    }
  }

  // ------------------------------------------------------------- a token outlived by its key

  /** Every token still in time has its key loaded, and will keep it. */
  ghost predicate Kept(s: State, tokens: set<Token>, longest: nat) {
    forall t | t in tokens && s.now <= t.until ::
      t.kid in s.keys && Covered(s.rows, t) && t.until <= s.now + longest
  }

  /** No token outlives the overlap its key is given when it is retired. */
  predicate LongEnough(step: Step, longest: nat) {
    match step
    case Insert(_, overlap) => longest <= overlap
    case Refresh(_, overlap) => longest <= overlap
    case Mint(life) => life <= longest
    case _ => true
  }

  lemma InsertKeeps(rows: Rows, kid: Kid, now: int, overlap: nat, t: Token)
    requires Covered(rows, t) && t.until <= now + overlap && kid !in rows
    ensures Covered(Inserted(rows, kid, now, overlap).value, t)
  {
  }

  lemma LoadKeeps(rows: Rows, now: int, t: Token)
    requires Covered(rows, t) && now <= t.until
    ensures t.kid in Load(rows, now) && Covered(Pruned(rows, now), t)
  {
  }

  lemma StepKeeps(s: State, step: Step, tokens: set<Token>, longest: nat)
    requires Sound(s) && Kept(s, tokens, longest) && LongEnough(step, longest)
    ensures Kept(Stepped(s, step), tokens + Minted(s, step), longest)
  {
    var after := Stepped(s, step);
    forall t | t in tokens + Minted(s, step) && after.now <= t.until
      ensures t.kid in after.keys && Covered(after.rows, t) && t.until <= after.now + longest
    {
      match step
      case Tick(_) =>
      case Mint(_) =>
      case Prune => LoadKeeps(s.rows, s.now, t);
      case Insert(kid, overlap) =>
        if kid !in s.rows {
          InsertKeeps(s.rows, kid, s.now, overlap, t);
        }
      case Refresh(kid, overlap) =>
        LoadKeeps(s.rows, s.now, t);
        if !AnyActive(s.rows) && kid !in s.rows {
          InsertKeeps(s.rows, kid, s.now, overlap, t);
        }
    }
  }

  /**
   Through any interleaving of rotations, refreshes, restarts and prunes: a token minted while
   its key was due to outlive it is verifiable until it expires.
   */
  lemma {:induction false} TokensStayVerifiable(s: State, steps: seq<Step>, before: set<Token>, longest: nat)
    requires Sound(s) && Kept(s, before, longest)
    requires forall step | step in steps :: LongEnough(step, longest)
    ensures forall t | t in before + Tokens(s, steps) && Run(s, steps).now <= t.until :: t.kid in Run(s, steps).keys
    decreases |steps|
  {
    if steps != [] {
      var first := steps[0];
      StepKeeps(s, first, before, longest);
      StepStaysSound(s, first);
      TokensStayVerifiable(Stepped(s, first), steps[1..], before + Minted(s, first), longest);
    }
  }

  // ------------------------------------------------------- which tokens are covered at all

  /** The key this process signs with is the stored active one. */
  ghost predicate InStep(s: State) {
    forall k | Signs(s, k) :: k in s.rows && s.rows[k].active
  }

  lemma InStepCovers(s: State, life: nat)
    requires InStep(s)
    ensures forall k | Signs(s, k) :: Token(k, s.now + life) in Minted(s, Mint(life))
  {
  }

  /** Only the gap inside a rotation is out of step: its second half, or any other step, is not. */
  lemma StaysInStep(s: State, step: Step)
    requires Sound(s) && !step.Insert?
    requires InStep(s) || (step.Refresh? && Refreshed(s.rows, step.kid, s.now, step.overlap).Some?)
    ensures InStep(Stepped(s, step))
  {
    var after := Stepped(s, step);
    forall k | Signs(after, k)
      ensures k in after.rows && after.rows[k].active
    {
      if step.Refresh? && AnyActive(s.rows) {
        assert k in Load(s.rows, s.now);
      }
    }
  }

  /** Every token a step mints, whatever becomes of its key. */
  function Signed(s: State, step: Step): set<Token> {
    if step.Mint? then set k | k in s.keys && s.keys[k].active :: Token(k, s.now + step.life) else {}
  }

  function AllSigned(s: State, steps: seq<Step>): set<Token>
    decreases |steps|
  {
    if steps == [] then {} else Signed(s, steps[0]) + AllSigned(Stepped(s, steps[0]), steps[1..])
  }

  /** No token of the run is minted between the two halves of a rotation. */
  ghost predicate MintsInStep(s: State, steps: seq<Step>)
    decreases |steps|
  {
    steps == [] || ((steps[0].Mint? ==> InStep(s)) && MintsInStep(Stepped(s, steps[0]), steps[1..]))
  }

  lemma {:induction false} InStepRunsCoverAll(s: State, steps: seq<Step>)
    requires MintsInStep(s, steps)
    ensures AllSigned(s, steps) == Tokens(s, steps)
    decreases |steps|
  {
    if steps != [] {
      InStepRunsCoverAll(Stepped(s, steps[0]), steps[1..]);
      if steps[0].Mint? {
        InStepCovers(s, steps[0].life);
        assert Signed(s, steps[0]) == Minted(s, steps[0]);
      }
    }
  }

  /** So every token of such a run, none left out, stays verifiable until it expires. */
  lemma AllTokensStayVerifiable(s: State, steps: seq<Step>, longest: nat)
    requires Sound(s) && MintsInStep(s, steps)
    requires forall step | step in steps :: LongEnough(step, longest)
    ensures forall t | t in AllSigned(s, steps) && Run(s, steps).now <= t.until :: t.kid in Run(s, steps).keys
  {
    InStepRunsCoverAll(s, steps);
    TokensStayVerifiable(s, steps, {}, longest);
    assert {} + Tokens(s, steps) == Tokens(s, steps);
  }

  /** A token minted before a rotation keeps its key exactly when the overlap is long enough for it. */
  lemma EarlyMintCoveredIff(s: State, prior: Kid, kid: Kid, overlap: nat, gap: nat, life: nat)
    requires Sound(s) && prior in s.rows && s.rows[prior].active && kid !in s.rows
    ensures var after := Run(s, [Tick(gap), Insert(kid, overlap)]);
            Covered(after.rows, Token(prior, s.now + life)) <==> life <= gap + overlap
  {
    var one := Stepped(s, Tick(gap));
    var two := Stepped(one, Insert(kid, overlap));
    assert Run(two, []) == two;
    assert [Tick(gap), Insert(kid, overlap)][1..] == [Insert(kid, overlap)] && [Insert(kid, overlap)][1..] == [];
    assert Run(one, [Insert(kid, overlap)]) == two;
  }

  /** Between a rotation's two halves the old key still signs; its tokens are covered while they fit. */
  lemma LateMintCoveredIff(s: State, prior: Kid, kid: Kid, overlap: nat, gap: nat, life: nat)
    requires Sound(s) && Signs(s, prior) && prior in s.rows && s.rows[prior].active && kid !in s.rows
    ensures var late := Run(s, [Insert(kid, overlap), Tick(gap)]);
            Signs(late, prior) && (Covered(late.rows, Token(prior, late.now + life)) <==> gap + life <= overlap)
  {
    var one := Stepped(s, Insert(kid, overlap));
    var two := Stepped(one, Tick(gap));
    assert Run(two, []) == two;
    assert [Insert(kid, overlap), Tick(gap)][1..] == [Tick(gap)] && [Tick(gap)][1..] == [];
    assert Run(one, [Tick(gap)]) == two;
  }

  /** A token that is not covered loses its key while it could still be accepted. */
  lemma UncoveredIsLost(s: State, t: Token, kid: Kid, overlap: nat)
    requires Sound(s) && AnyActive(s.rows) && s.now <= t.until && !Covered(s.rows, t)
    ensures var later := Run(s, [Tick(t.until - s.now), Refresh(kid, overlap)]);
            later.now == t.until && t.kid !in later.keys
  {
    var wait := t.until - s.now;
    var one := Stepped(s, Tick(wait));
    var two := Stepped(one, Refresh(kid, overlap));
    assert Run(two, []) == two;
    assert [Tick(wait), Refresh(kid, overlap)][1..] == [Refresh(kid, overlap)];
    assert [Refresh(kid, overlap)][1..] == [];
    assert Run(one, [Refresh(kid, overlap)]) == two;
  }

  predicate Due(keys: Keys, now: int, rotation: int) {
    forall k | k in keys && keys[k].active :: rotation < now - keys[k].created
  }

  /** A key that has just been made is due for rotation once it is older than the interval, and not before. */
  lemma FreshKeyIsDueIff(rows: Rows, kid: Kid, now: int, overlap: nat, loaded: int, later: int, rotation: int)
    requires kid !in rows
    ensures Due(Load(Inserted(rows, kid, now, overlap).value, loaded), later, rotation) <==> now + rotation < later
  {
    var after := Inserted(rows, kid, now, overlap).value;
    var keys := Load(after, loaded);
    assert kid in after && after[kid] == Row(now, true, None) && kid in keys;
    forall k | k in keys && keys[k].active
      ensures k == kid
    {
      assert k in after;
    }
  }

  /** A process that has loaded no active key makes one at once. */
  lemma NoneActiveIsDue(keys: Keys, now: int, rotation: int)
    requires forall k | k in keys :: !keys[k].active
    ensures Due(keys, now, rotation)
  {
  }

  /** After a refresh that does not fail there is a key to sign with, and it is the stored active one. */
  lemma RefreshedSigns(s: State, kid: Kid, overlap: nat)
    requires OneActive(s.rows) && Refreshed(s.rows, kid, s.now, overlap).Some?
    ensures var after := Stepped(s, Refresh(kid, overlap));
            && (exists k :: Signs(after, k) && k in after.rows && after.rows[k].active)
            && (AnyActive(s.rows) ==> after.rows == s.rows)
            && (!AnyActive(s.rows) ==> Signs(after, kid) && after.rows[kid] == Row(s.now, true, None))
  {
    var after := Stepped(s, Refresh(kid, overlap));
    if AnyActive(s.rows) {
      var k :| k in s.rows && s.rows[k].active;
      assert Signs(after, k);
    } else {
      assert Signs(after, kid);
    }
  }

  /** Pruning takes exactly the keys past their overlap, and no process loads anything else for it. */
  lemma PruningIsUnnoticed(rows: Rows, now: int, later: int)
    requires now <= later
    ensures Load(Pruned(rows, now), later) == Load(rows, later)
    ensures forall k :: k in Pruned(rows, now) <==> k in rows && k in Load(rows, now)
    ensures forall k | k in Pruned(rows, now) :: Pruned(rows, now)[k] == rows[k]
    ensures forall keys :: Stepped(State(rows, keys, now), Prune) == State(Pruned(rows, now), keys, now)
  {
  }

  /** One process: its view of the stored rows, and the keys it has loaded. */
  class TokenService {
    var rows: Rows
    var keys: Keys

    ghost predicate Valid()
      reads this
    {
      OneActive(rows) && OneLoaded(keys) && (keys != map[] ==> AnyActive(rows))
    }

    /** A process that has loaded nothing yet, over the rows an earlier one left. */
    constructor (stored: Rows)
      requires OneActive(stored)
      ensures Valid() && rows == stored && keys == map[]
    {
      rows, keys := stored, map[];
    }

    method InsertSigningKey(kid: Kid, now: int, overlap: nat) returns (ok: bool)
      requires Valid()
      modifies this`rows
      ensures Valid() && ok == (kid !in old(rows))
      ensures rows == if ok then Inserted(old(rows), kid, now, overlap).value else old(rows)
      ensures ok ==> AnyActive(rows)
    {
      ok := kid !in rows;
      if ok {
        InsertedIsActive(rows, kid, now, overlap);
        rows := map k | k in rows :: Outgoing(rows[k], now, overlap);
        rows := rows[kid := Row(now, true, None)];
      }
    }

    /** Every stored key but those past their overlap. */
    method LoadEntries(now: int) returns (entries: Keys, anyActive: bool)
      ensures entries == Load(rows, now) && anyActive == AnyActive(rows)
    {
      entries, anyActive := map[], false;
      var left := rows.Keys;
      while left != {}
        invariant left <= rows.Keys
        invariant entries == map k | k in rows && k !in left && !rows[k].Expired(now) ::
                               Loaded(rows[k].created, rows[k].active)
        invariant anyActive == exists k :: k in rows && k !in left && rows[k].active
        decreases |left|
      {
        var k :| k in left;
        left := left - {k};
        if !rows[k].Expired(now) {
          entries := entries[k := Loaded(rows[k].created, rows[k].active)];
          anyActive := anyActive || rows[k].active;
        }
      }
    }

    /** `unreadable` are the stored keys that do not open with this process's key material. */
    method Refresh(kid: Kid, now: int, overlap: nat, unreadable: set<Kid>) returns (ok: bool)
      requires Valid()
      modifies this
      ensures Valid()
      ensures ok == (Load(old(rows), now).Keys !! unreadable && Refreshed(old(rows), kid, now, overlap).Some?)
      ensures ok ==> (rows, keys) == Refreshed(old(rows), kid, now, overlap).value && keys != map[]
      ensures !ok ==> rows == old(rows) && keys == old(keys)
    {
      var entries, anyActive := LoadEntries(now);
      ok := entries.Keys !! unreadable;
      if ok && !anyActive {
        ok := InsertSigningKey(kid, now, overlap);
        entries := Passive(entries)[kid := Loaded(now, true)];
      }
      if ok {
        keys := entries;
        ghost var k :| k in rows && rows[k].active;
        assert k in keys;
      }
    }

    method Mint(now: int, life: nat) returns (token: Option<Token>)
      requires Valid()
      ensures token.Some? <==> exists k :: k in keys && keys[k].active
      ensures token.Some? ==> Signs(State(rows, keys, now), token.value.kid) && token.value.until == now + life
    {
      if k :| k in keys && keys[k].active {
        return Some(Token(k, now + life));
      }
      return None;
    }

    /** Both halves of a rotation; `later` is when the second one runs, which can fail on its own. */
    method RotateIfNeeded(kid: Kid, spare: Kid, now: int, later: int, rotation: int, overlap: nat, unreadable: set<Kid>)
        returns (ok: bool, rotated: bool)
      requires Valid() && now <= later
      modifies this
      ensures Valid() && rotated == (ok && Due(old(keys), now, rotation))
      ensures !Due(old(keys), now, rotation) ==> ok && rows == old(rows)
      ensures Due(old(keys), now, rotation) ==>
                && (ok <==> kid !in old(rows) && Load(rows, later).Keys !! unreadable)
                && rows == if kid in old(rows) then old(rows) else Inserted(old(rows), kid, now, overlap).value
      ensures keys == if rotated then Load(rows, later) else old(keys)
    {
      var due := true;
      if k :| k in keys && keys[k].active {
        due := rotation < now - keys[k].created;
      }
      ok := true;
      if due {
        ok := InsertSigningKey(kid, now, overlap);
        if ok {
          ok := Refresh(spare, later, overlap, unreadable);
        }
      }
      rotated := due && ok;
    }
  }
}
