/** The depositor's cache of derived keys: which keys get into it, and which files a resume is bound to. */
module DepositKeys {
  import opened Wrappers

  type Id = string
  type Path = string
  type Secret = Bytes

  const SALT_BYTES := 16

  datatype Manifest = Manifest(size: nat, digest: string)

  /** Key derivation, manifest sealing and file digests. */
  datatype Crypto = Crypto(
    derive: (string, Bytes) -> Secret,
    seal: (Secret, Manifest) -> Bytes,
    unseal: (Secret, Bytes) -> Option<Manifest>,
    digest: Bytes -> string)

  /** A sealed manifest opens under its own key and under no other. */
  ghost predicate Lawful(c: Crypto) {
    forall k, k', m :: c.unseal(k', c.seal(k, m)) == if k' == k then Some(m) else None
  }

  datatype Status = InProgress | Stored | Withdrawn | Purged | FailedInTransit

  /** A depositor row. Rows need not have been written here: salt and manifest may be anything. */
  datatype Row = Row(salt: Bytes, sealed: Bytes, status: Status)

  datatype Entry = Entry(key: Secret, path: Path, lastUsed: real)

  /** What a deposit was made with. */
  datatype Origin = Origin(key: Secret, manifest: Manifest, content: Bytes)

  /** A deposit bound to a file, with the key in hand and what the file held at that moment. */
  datatype Binding = Binding(id: Id, key: Secret, path: Path, content: Bytes)

  /** The rows, the cache, and two records of what happened: how each deposit was made, and to which
      file each deposit was bound. */
  datatype Vault = Vault(
    rows: map<Id, Row>,
    cache: map<Id, Entry>,
    made: map<Id, Origin>,
    bound: set<Binding>)

  // ---- the cache ----

  /** `store`: an entry keeps its path unless a new one is given. */
  function Keep(cache: map<Id, Entry>, id: Id, key: Secret, path: Option<Path>, now: real): map<Id, Entry> {
    var kept := if id in cache then cache[id].path else "";
    cache[id := Entry(key, if path.Some? then path.value else kept, now)]
  }

  /** `get`: an entry with an empty key counts as locked. */
  function Get(cache: map<Id, Entry>, id: Id): Option<Secret> {
    if id in cache && cache[id].key != [] then Some(cache[id].key) else None
  }

  /** `gc`: the entries that have not been idle too long. */
  function Fresh(cache: map<Id, Entry>, cutoff: real): map<Id, Entry> {
    map id | id in cache && (cache[id].key == [] || cache[id].lastUsed >= cutoff) :: cache[id]
  }

  // ---- the handlers ----

  /** The key a password gives, if the row's manifest opens under it. */
  function Verified(c: Crypto, v: Vault, id: Id, password: string): Option<(Secret, Manifest)> {
    if password == "" || id !in v.rows then None
    else
      var row := v.rows[id];
      if |row.salt| != SALT_BYTES || row.sealed == [] then None
      else
        var key := c.derive(password, row.salt);
        var manifest := c.unseal(key, row.sealed);
        if manifest.None? then None else Some((key, manifest.value))
  }

  /** Making a deposit under a new id. */
  function Deposit(c: Crypto, v: Vault, id: Id, password: string, salt: Bytes, path: Path, content: Bytes, now: real): Vault
  {
    if password == "" || path == "" || |salt| != SALT_BYTES || id in v.rows || id in v.made || id in v.cache then v
    else
      var key := c.derive(password, salt);
      var manifest := Manifest(|content|, c.digest(content));
      Vault(
        v.rows[id := Row(salt, c.seal(key, manifest), InProgress)],
        Keep(v.cache, id, key, Some(path), now),
        v.made[id := Origin(key, manifest, content)],
        v.bound + {Binding(id, key, path, content)})
  }

  function Unlock(c: Crypto, v: Vault, id: Id, password: string, now: real): Vault {
    var checked := Verified(c, v, id, password);
    if checked.None? then v else v.(cache := Keep(v.cache, id, checked.value.0, None, now))
  }

  /** A wrong password given to retrieve also drops what was cached. */
  function Retrieve(c: Crypto, v: Vault, id: Id, password: string, now: real): Vault {
    if password == "" || id !in v.rows || |v.rows[id].salt| != SALT_BYTES || v.rows[id].sealed == [] then v
    else
      var checked := Verified(c, v, id, password);
      if checked.None? then v.(cache := v.cache - {id})
      else v.(cache := Keep(v.cache, id, checked.value.0, Some(""), now))
  }

  function FailInTransit(v: Vault, id: Id): Vault {
    v.(rows := if id in v.rows then v.rows[id := v.rows[id].(status := FailedInTransit)] else v.rows,
       cache := v.cache - {id})
  }

  /** Rearming a deposit with a file that now has this content: refused on another size, fatal on
      another digest. */
  function Resume(c: Crypto, v: Vault, id: Id, password: string, path: Path, content: Bytes, now: real): Vault {
    if path == "" || (id in v.rows && v.rows[id].status != InProgress) then v
    else
      var checked := Verified(c, v, id, password);
      if checked.None? then v
      else
        var (key, manifest) := checked.value;
        if manifest.size != 0 && manifest.size != |content| then v
        else if manifest.digest != "" && manifest.digest != c.digest(content) then FailInTransit(v, id)
        else v.(cache := Keep(v.cache, id, key, Some(path), now), bound := v.bound + {Binding(id, key, path, content)})
  }

  function Lock(v: Vault, id: Id): Vault {
    v.(cache := v.cache - {id})
  }

  function Collect(v: Vault, cutoff: real): Vault {
    v.(cache := Fresh(v.cache, cutoff))
  }

  /** The rescue pass asks for the key, and asking counts as a use; for a locked deposit it stores an
      empty one, so that the ciphertext can be fetched and opened later. */
  function Rescue(v: Vault, id: Id, now: real): Vault {
    if id !in v.rows then v
    else
      var held := Get(v.cache, id);
      v.(cache := Keep(v.cache, id, if held.Some? then held.value else [], None, now))
  }

  /** Transfers move a row from status to status. */
  function SetStatus(v: Vault, id: Id, status: Status): Vault {
    if id !in v.rows then v else v.(rows := v.rows[id := v.rows[id].(status := status)])
  }

  // ---- runs ----

  datatype Step =
    | DoDeposit(id: Id, password: string, salt: Bytes, path: Path, content: Bytes, now: real)
    | DoUnlock(id: Id, password: string, now: real)
    | DoRetrieve(id: Id, password: string, now: real)
    | DoResume(id: Id, password: string, path: Path, content: Bytes, now: real)
    | DoLock(id: Id)
    | DoFail(id: Id)
    | DoCollect(cutoff: real)
    | DoRescue(id: Id, now: real)
    | DoStatus(id: Id, status: Status)

  function Apply(c: Crypto, v: Vault, s: Step): Vault {
    match s
    case DoDeposit(id, password, salt, path, content, now) => Deposit(c, v, id, password, salt, path, content, now)
    case DoUnlock(id, password, now) => Unlock(c, v, id, password, now)
    case DoRetrieve(id, password, now) => Retrieve(c, v, id, password, now)
    case DoResume(id, password, path, content, now) => Resume(c, v, id, password, path, content, now)
    case DoLock(id) => Lock(v, id)
    case DoFail(id) => FailInTransit(v, id)
    case DoCollect(cutoff) => Collect(v, cutoff)
    case DoRescue(id, now) => Rescue(v, id, now)
    case DoStatus(id, status) => SetStatus(v, id, status)
  }

  function Exec(c: Crypto, v: Vault, steps: seq<Step>): Vault
    decreases |steps|
  {
    if steps == [] then v else Apply(c, Exec(c, v, steps[..|steps| - 1]), steps[|steps| - 1])
  }

  /** A process that has just started: whatever rows there are, and nothing cached. */
  function Start(rows: map<Id, Row>): Vault {
    Vault(rows, map[], map[], {})
  }

  // ---- what every run keeps ----

  /** A cached key opens the manifest of its row, unless it is empty. */
  predicate KeysOpen(c: Crypto, v: Vault) {
    forall id <- v.cache :: id in v.rows && (v.cache[id].key != [] ==> c.unseal(v.cache[id].key, v.rows[id].sealed).Some?)
  }

  /** The row of a deposit made here still holds the manifest it was sealed with. */
  predicate RowsKept(c: Crypto, v: Vault) {
    forall id <- v.made ::
      && id in v.rows && v.rows[id].sealed == c.seal(v.made[id].key, v.made[id].manifest)
      && v.made[id].manifest == Manifest(|v.made[id].content|, c.digest(v.made[id].content))
  }

  /** The file a deposit was bound to agrees with the manifest in its row, as far as that records it. */
  predicate Agrees(c: Crypto, v: Vault, b: Binding) {
    && b.path != "" && b.id in v.rows
    && (var m := c.unseal(b.key, v.rows[b.id].sealed);
        && m.Some?
        && (m.value.size != 0 ==> m.value.size == |b.content|)
        && (m.value.digest != "" ==> m.value.digest == c.digest(b.content)))
  }

  predicate BindingsAgree(c: Crypto, v: Vault) {
    forall b <- v.bound :: Agrees(c, v, b)
  }

  /** A path in the cache was put there by a deposit or a resume. */
  predicate PathsBound(v: Vault) {
    forall id <- v.cache :: v.cache[id].path == "" || exists b <- v.bound :: b.id == id && b.path == v.cache[id].path
  }

  predicate Inv(c: Crypto, v: Vault) {
    KeysOpen(c, v) && RowsKept(c, v) && BindingsAgree(c, v) && PathsBound(v)
  }

  /** Storing a key that is empty or opens the row's manifest, under a path that is bound or already there. */
  lemma KeepInv(c: Crypto, v: Vault, id: Id, key: Secret, path: Option<Path>, now: real)
    requires Inv(c, v) && id in v.rows && (key != [] ==> c.unseal(key, v.rows[id].sealed).Some?)
    requires path.Some? ==> path.value == "" || exists b <- v.bound :: b.id == id && b.path == path.value
    ensures Inv(c, v.(cache := Keep(v.cache, id, key, path, now)))
  {
    var w := v.(cache := Keep(v.cache, id, key, path, now));
    forall x | x in w.cache
      ensures w.cache[x].path == "" || exists b <- w.bound :: b.id == x && b.path == w.cache[x].path
    {
      if x != id { assert x in v.cache; }
    }
    assert forall b <- w.bound :: Agrees(c, v, b);
  }

  lemma DropInv(c: Crypto, v: Vault, w: Vault)
    requires Inv(c, v) && w.rows == v.rows && w.made == v.made && w.bound == v.bound
    requires forall id <- w.cache :: id in v.cache && w.cache[id] == v.cache[id]
    ensures Inv(c, w)
  {
    assert forall b <- w.bound :: Agrees(c, v, b);
  }

  lemma StatusInv(c: Crypto, v: Vault, id: Id, status: Status)
    requires Inv(c, v)
    ensures Inv(c, SetStatus(v, id, status))
  {
    var w := SetStatus(v, id, status);
    forall b | b in w.bound
      ensures Agrees(c, w, b)
    {
      assert Agrees(c, v, b);
    }
  }

  lemma FailInv(c: Crypto, v: Vault, id: Id)
    requires Inv(c, v)
    ensures Inv(c, FailInTransit(v, id))
  {
    var w := SetStatus(v, id, FailedInTransit);
    StatusInv(c, v, id, FailedInTransit);
    DropInv(c, w, FailInTransit(v, id));
  }

  lemma DepositInv(c: Crypto, v: Vault, id: Id, password: string, salt: Bytes, path: Path, content: Bytes, now: real)
    requires Lawful(c) && Inv(c, v)
    ensures Inv(c, Deposit(c, v, id, password, salt, path, content, now))
  {
    var w := Deposit(c, v, id, password, salt, path, content, now);
    if w != v {
      forall b | b in w.bound
        ensures Agrees(c, w, b)
      {
        if b in v.bound { assert Agrees(c, v, b); }
      }
      forall x | x in w.cache
        ensures w.cache[x].path == "" || exists b <- w.bound :: b.id == x && b.path == w.cache[x].path
      {
        if x == id {
          assert Binding(id, w.cache[id].key, path, content) in w.bound;
        } else if v.cache[x].path != "" {
          var b :| b in v.bound && b.id == x && b.path == v.cache[x].path;
          assert b in w.bound;
        }
      }
    }
  }

  lemma ResumeInv(c: Crypto, v: Vault, id: Id, password: string, path: Path, content: Bytes, now: real)
    requires Inv(c, v)
    ensures Inv(c, Resume(c, v, id, password, path, content, now))
  {
    FailInv(c, v, id);
    var checked := Verified(c, v, id, password);
    if checked.Some? && path != "" {
      var (key, m) := checked.value;
      if (m.size == 0 || m.size == |content|) && (m.digest == "" || m.digest == c.digest(content)) {
        var b := Binding(id, key, path, content);
        var w := v.(bound := v.bound + {b});
        assert Agrees(c, w, b);
        BindInv(c, v, b);
        assert b in w.bound;
        KeepInv(c, w, id, key, Some(path), now);
      }
    }
  }

  lemma BindInv(c: Crypto, v: Vault, b: Binding)
    requires Inv(c, v) && Agrees(c, v, b)
    ensures Inv(c, v.(bound := v.bound + {b}))
  {
    var w := v.(bound := v.bound + {b});
    forall x | x in w.bound
      ensures Agrees(c, w, x)
    {
      assert Agrees(c, v, x);
    }
    forall x | x in w.cache && w.cache[x].path != ""
      ensures exists y <- w.bound :: y.id == x && y.path == w.cache[x].path
    {
      var y :| y in v.bound && y.id == x && y.path == v.cache[x].path;
      assert y in w.bound;
    }
  }

  lemma RescueInv(c: Crypto, v: Vault, id: Id, now: real)
    requires Inv(c, v)
    ensures Inv(c, Rescue(v, id, now))
  {
    var held := Get(v.cache, id);
    if id in v.rows { KeepInv(c, v, id, if held.Some? then held.value else [], None, now); }
  }

  /** A rescue neither gives nor takes a key: what is locked stays locked, what is unlocked keeps its key. */
  lemma RescueKeepsKeys(v: Vault, id: Id, now: real, x: Id)
    ensures Get(Rescue(v, id, now).cache, x) == Get(v.cache, x)
  {
  }

  lemma ApplyInv(c: Crypto, v: Vault, s: Step)
    requires Lawful(c) && Inv(c, v)
    ensures Inv(c, Apply(c, v, s))
  {
    match s
    case DoDeposit(id, password, salt, path, content, now) => DepositInv(c, v, id, password, salt, path, content, now);
    case DoUnlock(id, password, now) =>
      var checked := Verified(c, v, id, password);
      if checked.Some? { KeepInv(c, v, id, checked.value.0, None, now); }
    case DoRetrieve(id, password, now) =>
      var checked := Verified(c, v, id, password);
      DropInv(c, v, Lock(v, id));
      if checked.Some? { KeepInv(c, v, id, checked.value.0, Some(""), now); }
    case DoResume(id, password, path, content, now) => ResumeInv(c, v, id, password, path, content, now);
    case DoLock(id) => DropInv(c, v, Lock(v, id));
    case DoFail(id) => FailInv(c, v, id);
    case DoCollect(cutoff) => DropInv(c, v, Collect(v, cutoff));
    case DoRescue(id, now) => RescueInv(c, v, id, now);
    case DoStatus(id, status) => StatusInv(c, v, id, status);
  }

  lemma {:induction false} ExecInv(c: Crypto, rows: map<Id, Row>, steps: seq<Step>)
    requires Lawful(c)
    ensures Inv(c, Exec(c, Start(rows), steps))
    decreases |steps|
  {
    if steps == [] {
    } else {
      ExecInv(c, rows, steps[..|steps| - 1]);
      ApplyInv(c, Exec(c, Start(rows), steps[..|steps| - 1]), steps[|steps| - 1]);
    }
  }

  /** Whatever passwords were tried, a key that `get` returns opens the manifest of its row; for a deposit
      made in this process it is the key the deposit was made with. */
  lemma CachedKeysAreRight(c: Crypto, rows: map<Id, Row>, steps: seq<Step>, id: Id)
    requires Lawful(c) && Get(Exec(c, Start(rows), steps).cache, id).Some?
    ensures var v := Exec(c, Start(rows), steps);
            var key := Get(v.cache, id).value;
            && id in v.rows && c.unseal(key, v.rows[id].sealed).Some?
            && (id in v.made ==> key == v.made[id].key)
  {
    ExecInv(c, rows, steps);
  }

  /** Every file a deposit was ever bound to has the recorded size and digest; a deposit made in this
      process is bound only to files with the digest of what was deposited, so that where digests tell
      files apart it is bound only to what was deposited. */
  lemma BoundFilesAgree(c: Crypto, rows: map<Id, Row>, steps: seq<Step>, b: Binding)
    requires Lawful(c) && b in Exec(c, Start(rows), steps).bound
    ensures var v := Exec(c, Start(rows), steps);
            && Agrees(c, v, b)
            && (b.id in v.made ==>
                  var content := v.made[b.id].content;
                  && (c.digest(content) != "" ==> c.digest(b.content) == c.digest(content))
                  && (content != [] ==> |b.content| == |content|))
  {
    ExecInv(c, rows, steps);
  }

  /** A path that is cached was bound to a file that agreed. */
  lemma CachedPathsAgree(c: Crypto, rows: map<Id, Row>, steps: seq<Step>, id: Id)
    requires Lawful(c) && id in Exec(c, Start(rows), steps).cache
    requires Exec(c, Start(rows), steps).cache[id].path != ""
    ensures var v := Exec(c, Start(rows), steps);
            exists b <- v.bound :: b.id == id && b.path == v.cache[id].path && Agrees(c, v, b)
  {
    ExecInv(c, rows, steps);
    var v := Exec(c, Start(rows), steps);
    var b :| b in v.bound && b.id == id && b.path == v.cache[id].path;
    assert Agrees(c, v, b);
  }

  // ---- passwords ----

  /** The password opens the row's manifest. */
  predicate Opens(c: Crypto, v: Vault, id: Id, password: string) {
    && password != "" && id in v.rows && |v.rows[id].salt| == SALT_BYTES && v.rows[id].sealed != []
    && c.unseal(c.derive(password, v.rows[id].salt), v.rows[id].sealed).Some?
  }

  /** An unlock gives the key of a password that opens the deposit; with any other it changes no answer. */
  lemma UnlockGives(c: Crypto, v: Vault, id: Id, password: string, now: real, x: Id)
    ensures Get(Unlock(c, v, id, password, now).cache, x) ==
            if x == id && Opens(c, v, id, password) then
              var key := c.derive(password, v.rows[id].salt);
              if key == [] then None else Some(key)
            else Get(v.cache, x)
  {
  }

  /** Locking forgets this key and no other. */
  lemma LockForgets(v: Vault, id: Id, x: Id)
    ensures Get(Lock(v, id).cache, x) == if x == id then None else Get(v.cache, x)
  {
  }

  /** So does a wrong password given to retrieve, where a right one gives the key. */
  lemma RetrieveGives(c: Crypto, v: Vault, id: Id, password: string, now: real, x: Id)
    requires password != "" && id in v.rows && |v.rows[id].salt| == SALT_BYTES && v.rows[id].sealed != []
    ensures Get(Retrieve(c, v, id, password, now).cache, x) ==
            if x == id then Get(Unlock(c, Lock(v, id), id, password, now).cache, id) else Get(v.cache, x)
    ensures var w := Retrieve(c, v, id, password, now); id in w.cache ==> w.cache[id].path == ""
  {
  }

  /** Collecting forgets exactly the keys that were last used before the cutoff. */
  lemma CollectForgets(v: Vault, cutoff: real, x: Id)
    ensures Get(Collect(v, cutoff).cache, x) ==
            if x in v.cache && v.cache[x].lastUsed < cutoff then None else Get(v.cache, x)
  {
  }

  /** What a resume of a deposit in progress comes to: nothing unless the password opens it and the file has
      the recorded size; the end of the deposit if the file is another of that size; else the deposit is
      armed with this file and its key. */
  lemma ResumeOutcome(c: Crypto, v: Vault, id: Id, password: string, path: Path, content: Bytes, now: real)
    requires id in v.rows && path != ""
    ensures var w, row := Resume(c, v, id, password, path, content, now), v.rows[id];
            if row.status != InProgress || !Opens(c, v, id, password) then w == v
            else
              var key := c.derive(password, row.salt);
              var m := c.unseal(key, row.sealed).value;
              if m.size != 0 && m.size != |content| then w == v
              else if m.digest != "" && m.digest != c.digest(content) then
                id !in w.cache && w.rows[id].status == FailedInTransit && w.bound == v.bound
              else
                && id in w.cache && w.cache[id] == Entry(key, path, now) && w.rows == v.rows
                && Binding(id, key, path, content) in w.bound
  {
  }

  /** Rows keep what they were sealed with. */
  lemma {:induction false} RowsStay(c: Crypto, v: Vault, steps: seq<Step>, id: Id)
    requires id in v.rows
    ensures var w := Exec(c, v, steps);
            id in w.rows && w.rows[id].salt == v.rows[id].salt && w.rows[id].sealed == v.rows[id].sealed
    decreases |steps|
  {
    if steps == [] {
    } else {
      RowsStay(c, v, steps[..|steps| - 1], id);
    }
  }

  /** Whatever happened since a deposit was made, the password it was made with gives its key back, and one
      that derives another key changes no answer. */
  lemma DepositThenUnlock(c: Crypto, v: Vault, id: Id, password: string, salt: Bytes, path: Path, content: Bytes,
                          now: real, steps: seq<Step>, attempt: string, later: real)
    requires Lawful(c) && password != "" && path != "" && |salt| == SALT_BYTES
    requires id !in v.rows && id !in v.made && id !in v.cache
    requires var key := c.derive(password, salt);
             key != [] && c.seal(key, Manifest(|content|, c.digest(content))) != []
    ensures var w := Exec(c, Deposit(c, v, id, password, salt, path, content, now), steps);
            var key := c.derive(password, salt);
            Get(Unlock(c, w, id, attempt, later).cache, id) ==
              if attempt != "" && c.derive(attempt, salt) == key then Some(key) else Get(w.cache, id)
  {
    var d := Deposit(c, v, id, password, salt, path, content, now);
    RowsStay(c, d, steps, id);
    UnlockGives(c, Exec(c, d, steps), id, attempt, later, id);
  }

  // ---- in place ----

  class KeyCache {
    const c: Crypto
    var rows: map<Id, Row>
    var cache: map<Id, Entry>
    ghost var made: map<Id, Origin>
    ghost var bound: set<Binding>

    ghost function State(): Vault
      reads this
    {
      Vault(rows, cache, made, bound)
    }

    constructor (c: Crypto, rows: map<Id, Row>)
      ensures this.c == c && State() == Start(rows)
    {
      this.c, this.rows, cache, made, bound := c, rows, map[], map[], {};
    }

    /** `store`. */
    method Remember(id: Id, key: Secret, path: Option<Path>, now: real)
      modifies `cache
      ensures cache == Keep(old(cache), id, key, path, now)
    {
      var entry := if id in cache then cache[id].(key := key, lastUsed := now) else Entry(key, "", now);
      if path.Some? { entry := entry.(path := path.value); }
      cache := cache[id := entry];
    }

    /** `drop`. */
    method Forget(id: Id) returns (present: bool)
      modifies `cache
      ensures cache == old(cache) - {id} && present == (id in old(cache))
    {
      present := id in cache;
      cache := cache - {id};
    }

    /** `gc`: drops what has been idle, entry by entry, and says which. */
    method EvictIdle(cutoff: real) returns (evicted: set<Id>)
      modifies `cache
      ensures State() == Collect(old(State()), cutoff)
      ensures evicted == old(cache).Keys - cache.Keys
    {
      evicted := {};
      var todo := cache.Keys;
      while todo != {}
        invariant todo <= cache.Keys && evicted == old(cache).Keys - cache.Keys && cache.Keys <= old(cache).Keys
        invariant forall id <- cache :: cache[id] == old(cache)[id]
        invariant forall id <- cache.Keys - todo :: cache[id].key == [] || cache[id].lastUsed >= cutoff
        invariant forall id <- evicted :: old(cache)[id].key != [] && old(cache)[id].lastUsed < cutoff
        decreases |todo|
      {
        var id :| id in todo;
        todo := todo - {id};
        if cache[id].key != [] && cache[id].lastUsed < cutoff {
          var _ := Forget(id);
          evicted := evicted + {id};
        }
      }
    }

    /** `foreign_storage_deposit`, under a fresh id. */
    method MakeDeposit(id: Id, password: string, salt: Bytes, path: Path, content: Bytes, now: real) returns (ok: bool)
      requires id !in rows && id !in made && id !in cache && |salt| == SALT_BYTES
      modifies this
      ensures ok == (password != "" && path != "")
      ensures State() == Deposit(c, old(State()), id, password, salt, path, content, now)
    {
      if password == "" || path == "" { return false; }
      var key := c.derive(password, salt);
      var manifest := Manifest(|content|, c.digest(content));
      rows := rows[id := Row(salt, c.seal(key, manifest), InProgress)];
      Remember(id, key, Some(path), now);
      made := made[id := Origin(key, manifest, content)];
      bound := bound + {Binding(id, key, path, content)};
      return true;
    }

    method UnlockDeposit(id: Id, password: string, now: real) returns (ok: bool)
      modifies this
      ensures State() == Unlock(c, old(State()), id, password, now)
      ensures ok == Verified(c, old(State()), id, password).Some?
    {
      if password == "" || id !in rows { return false; }
      var row := rows[id];
      if |row.salt| != SALT_BYTES || row.sealed == [] { return false; }
      var key := c.derive(password, row.salt);
      if c.unseal(key, row.sealed).None? { return false; }
      Remember(id, key, None, now);
      return true;
    }

    method RetrieveDeposit(id: Id, password: string, now: real) returns (ok: bool)
      modifies this
      ensures State() == Retrieve(c, old(State()), id, password, now)
      ensures ok == Verified(c, old(State()), id, password).Some?
    {
      if password == "" || id !in rows { return false; }
      var row := rows[id];
      if |row.salt| != SALT_BYTES || row.sealed == [] { return false; }
      var key := c.derive(password, row.salt);
      if c.unseal(key, row.sealed).None? {
        var _ := Forget(id);
        return false;
      }
      Remember(id, key, Some(""), now);
      return true;
    }

    /** `get`: the key, if there is one, and the time it was asked for. */
    method Ask(id: Id, now: real) returns (key: Option<Secret>)
      modifies `cache
      ensures key == Get(old(cache), id)
      ensures cache == if key.Some? then Keep(old(cache), id, key.value, None, now) else old(cache)
    {
      if id !in cache || cache[id].key == [] { return None; }
      key := Some(cache[id].key);
      cache := cache[id := cache[id].(lastUsed := now)];
    }

    /** `_rescue_to_folder`, as far as the cache goes. */
    method RescueDeposit(id: Id, now: real)
      requires id in rows
      modifies this
      ensures State() == Rescue(old(State()), id, now)
    {
      var key := Ask(id, now);
      if key.None? { Remember(id, [], None, now); }
    }

    method FailDeposit(id: Id)
      modifies this
      ensures State() == FailInTransit(old(State()), id)
    {
      if id in rows { rows := rows[id := rows[id].(status := FailedInTransit)]; }
      var _ := Forget(id);
    }

    method ResumeDeposit(id: Id, password: string, path: Path, content: Bytes, now: real)
      modifies this
      ensures State() == Resume(c, old(State()), id, password, path, content, now)
    {
      if password == "" || path == "" || id !in rows { return; }
      var row := rows[id];
      if row.status != InProgress || |row.salt| != SALT_BYTES || row.sealed == [] { return; }
      var key := c.derive(password, row.salt);
      var manifest := c.unseal(key, row.sealed);
      if manifest.None? { return; }
      if manifest.value.size != 0 && manifest.value.size != |content| { return; }
      if manifest.value.digest != "" && manifest.value.digest != c.digest(content) {
        FailDeposit(id);
        return;
      }
      Remember(id, key, Some(path), now);
      bound := bound + {Binding(id, key, path, content)};
    }
  }
}
