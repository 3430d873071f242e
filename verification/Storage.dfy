/** The transactional key-value store (InMemoryStorage in docs/storage_backend_example.rs):
    an overlay with tombstones that behaves like a plain map with one saved snapshot. */
module Storage {
  import opened Values

  datatype StorageError = InvalidKey | TransactionError | NoTransaction

  const FORBIDDEN: string := "\\?#[]*"

  predicate ValidKey(key: string) {
    key != "" && forall i :: 0 <= i < |key| ==> key[i] !in FORBIDDEN
  }

  // ---------- the plain map with a snapshot ----------

  datatype Plain = Plain(view: map<string, real>, saved: Option<map<string, real>>)

  datatype Operation =
    | Set(key: string, value: real)
    | Delete(key: string)
    | Begin
    | Commit
    | Rollback

  function Respond(s: Plain, op: Operation): (Plain, Option<StorageError>) {
    match op
    case Set(k, v) => if ValidKey(k) then (s.(view := s.view[k := v]), None) else (s, Some(InvalidKey))
    case Delete(k) => if ValidKey(k) then (s.(view := s.view - {k}), None) else (s, Some(InvalidKey))
    case Begin => if s.saved.Some? then (s, Some(TransactionError)) else (s.(saved := Some(s.view)), None)
    case Commit => if s.saved.None? then (s, Some(NoTransaction)) else (s.(saved := None), None)
    case Rollback => if s.saved.None? then (s, Some(NoTransaction)) else (Plain(s.saved.value, None), None)
  }

  function RunAll(s: Plain, ops: seq<Operation>): Plain
    decreases |ops|
  {
    if ops == [] then s else RunAll(Respond(s, ops[0]).0, ops[1..])
  }

  function Replies(s: Plain, ops: seq<Operation>): seq<Option<StorageError>>
    decreases |ops|
  {
    if ops == [] then [] else [Respond(s, ops[0]).1] + Replies(Respond(s, ops[0]).0, ops[1..])
  }

  // ---------- what a read sees ----------

  /** What a read of the key answers. */
  function Read(view: map<string, real>, key: string): Option<real> {
    if key in view then Some(view[key]) else None
  }

  /** A write of this key that is accepted. */
  predicate Writes(op: Operation, key: string) {
    (op.Set? || op.Delete?) && op.key == key && ValidKey(key)
  }

  function Written(op: Operation): Option<real>
    requires op.Set? || op.Delete?
  {
    if op.Set? then Some(op.value) else None
  }

  /** An accepted write decides the next read of its key and of no other, in and out of a transaction,
      and leaves the snapshot alone; a refused operation changes nothing, and a write is refused
      exactly for an invalid key. Opening and committing change no read; rolling back changes every
      read to the snapshot. */
  lemma ReadAfter(s: Plain, op: Operation, key: string)
    ensures var (s', error) := Respond(s, op);
            && (error.Some? ==> s' == s)
            && (op.Set? || op.Delete? ==>
                  && (error == None <==> ValidKey(op.key)) && (error.Some? ==> error == Some(InvalidKey))
                  && Read(s'.view, key) == (if Writes(op, key) then Written(op) else Read(s.view, key))
                  && s'.saved == s.saved)
            && (op.Begin? ==> (error == None <==> s.saved.None?) && s'.view == s.view && s'.saved.Some?)
            && (op.Begin? && error == None ==> s'.saved == Some(s.view))
            && (op.Commit? ==> (error == None <==> s.saved.Some?) && s'.view == s.view && s'.saved.None?)
            && (op.Rollback? ==> (error == None <==> s.saved.Some?) && s'.saved.None?)
            && (op.Rollback? && error == None ==> s'.view == s.saved.value)
  {
  }

  /** Keys: none is empty, none holds a forbidden character, and valid parts make valid keys. */
  lemma KeyLaws(x: string, y: string, c: char)
    ensures !ValidKey("")
    ensures c in {'\\', '?', '#', '[', ']', '*'} ==> !ValidKey(x + [c] + y)
    ensures c !in {'\\', '?', '#', '[', ']', '*'} && ValidKey(x) && ValidKey(y) ==> ValidKey(x + [c] + y)
    ensures c !in {'\\', '?', '#', '[', ']', '*'} ==> ValidKey([c])
  {
    var key := x + [c] + y;
    assert key[|x|] == c;
    assert forall i :: 0 <= i < |x| ==> key[i] == x[i];
    assert forall i :: |x| < i < |key| ==> key[i] == y[i - |x| - 1];
    assert forall d :: d in FORBIDDEN <==> d in {'\\', '?', '#', '[', ']', '*'};
  }

  /** Operations that neither open nor close a transaction. */
  predicate WritesOnly(ops: seq<Operation>) {
    forall i :: 0 <= i < |ops| ==> ops[i].Set? || ops[i].Delete?
  }

  lemma {:induction false} RunAppend(s: Plain, xs: seq<Operation>, ys: seq<Operation>)
    ensures RunAll(s, xs + ys) == RunAll(RunAll(s, xs), ys)
    decreases |xs|
  {
    if xs == [] {
      assert xs + ys == ys;
    } else {
      assert (xs + ys)[1..] == xs[1..] + ys;
      RunAppend(Respond(s, xs[0]).0, xs[1..], ys);
    }
  }

  /** Writes inside and outside a transaction do the same to the view, answer alike, and leave the
      snapshot alone. */
  lemma {:induction false} WritesSame(view: map<string, real>, saved: Option<map<string, real>>, ops: seq<Operation>)
    requires WritesOnly(ops)
    ensures RunAll(Plain(view, saved), ops) == RunAll(Plain(view, None), ops).(saved := saved)
    ensures Replies(Plain(view, saved), ops) == Replies(Plain(view, None), ops)
    decreases |ops|
  {
    if ops != [] {
      var r := Respond(Plain(view, None), ops[0]);
      assert Respond(Plain(view, saved), ops[0]) == (r.0.(saved := saved), r.1);
      WritesSame(r.0.view, saved, ops[1..]);
    }
  }

  /** A rolled-back transaction leaves no trace; a committed one is the same as its writes. */
  lemma TransactionAtomic(s: Plain, ops: seq<Operation>)
    requires s.saved.None? && WritesOnly(ops)
    ensures RunAll(s, [Begin] + ops + [Rollback]) == s
    ensures RunAll(s, [Begin] + ops + [Commit]) == RunAll(s, ops)
  {
    var s1 := Respond(s, Begin).0;
    var s2 := RunAll(s1, ops);
    WritesSame(s.view, s1.saved, ops);
    WritesSame(s.view, None, ops);
    assert s2.saved == Some(s.view);
    forall last | last in {Commit, Rollback}
      ensures RunAll(s, [Begin] + ops + [last]) == Respond(s2, last).0
    {
      assert [Begin] + ops + [last] == [Begin] + (ops + [last]);
      RunAppend(s1, ops, [last]);
      assert ([Begin] + (ops + [last]))[1..] == ops + [last];
      assert RunAll(s2, [last]) == RunAll(Respond(s2, last).0, [last][1..]);
    }
  }

  // ---------- the last write that stays ----------

  /** The state after the first n operations. */
  function At(s: Plain, ops: seq<Operation>, n: nat): Plain
    requires n <= |ops|
  {
    if n == 0 then s else Respond(At(s, ops, n - 1), ops[n - 1]).0
  }

  lemma {:induction false} AtShift(s: Plain, ops: seq<Operation>, n: nat)
    requires 0 < n <= |ops|
    ensures At(s, ops, n) == At(Respond(s, ops[0]).0, ops[1..], n - 1)
  {
    hide Respond;
    if n > 1 { AtShift(s, ops, n - 1); }
  }

  lemma {:induction false} AtEnd(s: Plain, ops: seq<Operation>)
    ensures At(s, ops, |ops|) == RunAll(s, ops)
    decreases |ops|
  {
    hide Respond;
    if ops != [] {
      AtShift(s, ops, |ops|);
      AtEnd(Respond(s, ops[0]).0, ops[1..]);
    }
  }

  /** No transaction ends between operations i and n. */
  predicate StaysOpen(ops: seq<Operation>, i: nat, n: nat) {
    forall r :: i < r < n && r < |ops| ==> !ops[r].Commit? && !ops[r].Rollback?
  }

  /** Of the first n operations, number j belongs to a transaction that has not ended. */
  predicate Pending(s: Plain, ops: seq<Operation>, n: nat, j: nat) {
    j < n <= |ops| && At(s, ops, j).saved.Some? && StaysOpen(ops, j, n)
  }

  /** Of the first n operations, number j belongs to a transaction that was rolled back. */
  predicate Undone(s: Plain, ops: seq<Operation>, n: nat, j: nat) {
    exists r :: j < r < n && r < |ops| && ops[r].Rollback? && Pending(s, ops, r, j)
  }

  /** Of the first n operations, number j is the last write of the key that stays; with `closed`, the
      last that does not belong to an open transaction either. */
  predicate LastWrite(s: Plain, ops: seq<Operation>, n: nat, j: nat, key: string, closed: bool) {
    && Stays(s, ops, n, j, key, closed)
    && forall i :: j < i < n && i < |ops| ==> !Stays(s, ops, n, i, key, closed)
  }

  predicate Stays(s: Plain, ops: seq<Operation>, n: nat, j: nat, key: string, closed: bool) {
    && j < n <= |ops| && Writes(ops[j], key) && !Undone(s, ops, n, j)
    && (closed ==> !Pending(s, ops, n, j))
  }

  /** The value the key has by the first n operations. */
  ghost predicate Decides(s: Plain, ops: seq<Operation>, n: nat, key: string, closed: bool, value: Option<real>) {
    && (forall j: nat :: LastWrite(s, ops, n, j, key, closed) ==> value == Written(ops[j]))
    && ((forall j: nat :: !Stays(s, ops, n, j, key, closed)) ==> value == Read(s.view, key))
  }

  lemma {:induction false} OpenAcross(s: Plain, ops: seq<Operation>, i: nat, n: nat)
    requires i < n <= |ops| && At(s, ops, i).saved.Some? && StaysOpen(ops, i, n)
    requires !ops[i].Commit? && !ops[i].Rollback?
    ensures At(s, ops, n).saved.Some?
    decreases n
  {
    if i < n - 1 { OpenAcross(s, ops, i, n - 1); }
  }

  /** What one more operation does to a write. */
  lemma StaysStep(s: Plain, ops: seq<Operation>, n: nat, j: nat, key: string, closed: bool)
    requires j < n < |ops| && Writes(ops[j], key)
    ensures var open := At(s, ops, n).saved.Some?;
            && (Pending(s, ops, n, j) ==> open)
            && (!ops[n].Rollback? && !ops[n].Commit? ==>
                  (Stays(s, ops, n + 1, j, key, closed) <==> Stays(s, ops, n, j, key, closed)))
            && (ops[n].Commit? ==> (Stays(s, ops, n + 1, j, key, closed) <==> Stays(s, ops, n, j, key, false)))
            && (ops[n].Rollback? ==> (Stays(s, ops, n + 1, j, key, closed) <==> Stays(s, ops, n, j, key, true)))
  {
    hide At;
    if Pending(s, ops, n, j) { OpenAcross(s, ops, j, n); }
    UndoneStep(s, ops, n, j);
    assert Pending(s, ops, n + 1, j) <==> Pending(s, ops, n, j) && !ops[n].Commit? && !ops[n].Rollback?;
  }

  lemma UndoneStep(s: Plain, ops: seq<Operation>, n: nat, j: nat)
    requires j < n < |ops|
    ensures Undone(s, ops, n + 1, j) <==> Undone(s, ops, n, j) || (ops[n].Rollback? && Pending(s, ops, n, j))
  {
    hide Pending;
    if Undone(s, ops, n + 1, j) {
      var r :| j < r < n + 1 && r < |ops| && ops[r].Rollback? && Pending(s, ops, r, j);
      assert r == n || Undone(s, ops, n, j);
    }
    if ops[n].Rollback? && Pending(s, ops, n, j) { assert Undone(s, ops, n + 1, j); }
  }

  /** If the writes that stay are the same after one more operation, so is the decision. */
  lemma SameDecision(s: Plain, ops: seq<Operation>, n: nat, next: nat, key: string, closed: bool, before: bool,
                     value: Option<real>)
    requires next == n + 1 <= |ops| && Decides(s, ops, n, key, before, value)
    requires forall j: nat :: j < n ==> (Stays(s, ops, next, j, key, closed) <==> Stays(s, ops, n, j, key, before))
    requires !Stays(s, ops, next, n, key, closed)
    ensures Decides(s, ops, next, key, closed, value)
  {
    StaysEarlier(s, ops, n, key, before);
    StaysEarlier(s, ops, next, key, closed);
    hide Stays;
    forall j: nat | LastWrite(s, ops, next, j, key, closed)
      ensures value == Written(ops[j])
    {
      assert LastWrite(s, ops, n, j, key, before);
    }
    if forall j: nat :: !Stays(s, ops, next, j, key, closed) {
      assert forall j: nat :: !Stays(s, ops, n, j, key, before);
    }
  }

  lemma StaysEarlier(s: Plain, ops: seq<Operation>, n: nat, key: string, closed: bool)
    ensures forall j: nat :: Stays(s, ops, n, j, key, closed) ==> j < n <= |ops| && (ops[j].Set? || ops[j].Delete?)
  {
  }

  lemma FirstDecision(s: Plain, ops: seq<Operation>, key: string)
    ensures Decides(s, ops, 0, key, false, Read(s.view, key))
  {
  }

  /** A write that stays decides. */
  lemma NewDecision(s: Plain, ops: seq<Operation>, n: nat, next: nat, key: string)
    requires next == n + 1 <= |ops| && Writes(ops[n], key)
    ensures Decides(s, ops, next, key, false, Written(ops[n]))
  {
    hide At, Pending, Writes;
    assert !Undone(s, ops, next, n);
    assert Stays(s, ops, next, n, key, false);
    forall j: nat | LastWrite(s, ops, next, j, key, false)
      ensures j == n
    {
    }
  }

  /** Which of the earlier writes stay, seen from before one more operation. */
  lemma StaysSteps(s: Plain, ops: seq<Operation>, n: nat, next: nat, key: string, closed: bool, before: bool)
    requires next == n + 1 <= |ops|
    requires before == (At(s, ops, n).saved.Some? && (ops[n].Rollback? || (closed && !ops[n].Commit?)))
    ensures forall j: nat :: j < n ==> (Stays(s, ops, next, j, key, closed) <==> Stays(s, ops, n, j, key, before))
  {
    hide At;
    forall j: nat | j < n
      ensures Stays(s, ops, next, j, key, closed) <==> Stays(s, ops, n, j, key, before)
    {
      if Writes(ops[j], key) {
        hide Undone, Pending;
        StaysStep(s, ops, n, j, key, closed);
        StaysStep(s, ops, n, j, key, true);
      }
    }
  }

  /** The current view and the snapshot hold, for every key, the last write that stays. */
  lemma {:induction false} ViewDecided(s: Plain, ops: seq<Operation>, n: nat, key: string)
    requires s.saved.None? && n <= |ops|
    ensures Decides(s, ops, n, key, false, Read(At(s, ops, n).view, key))
    ensures At(s, ops, n).saved.Some? ==> Decides(s, ops, n, key, true, Read(At(s, ops, n).saved.value, key))
    decreases n
  {
    hide Stays, LastWrite, Respond, Read, Decides;
    if n == 0 {
      FirstDecision(s, ops, key);
    } else {
      var m: nat := n - 1;
      var before, op := At(s, ops, m), ops[m];
      ViewDecided(s, ops, m, key);
      ReadAfter(before, op, key);
      StaysLast(s, ops, m, n, key);
      var open, view := before.saved.Some?, Read(before.view, key);
      StaysSteps(s, ops, m, n, key, false, open && op.Rollback?);
      if Writes(op, key) {
        NewDecision(s, ops, m, n, key);
      } else if open && op.Rollback? {
        SameDecision(s, ops, m, n, key, false, true, Read(before.saved.value, key));
      } else {
        SameDecision(s, ops, m, n, key, false, false, view);
      }
      if open && !op.Rollback? && !op.Commit? {
        StaysSteps(s, ops, m, n, key, true, true);
        SameDecision(s, ops, m, n, key, true, true, Read(before.saved.value, key));
      } else if op.Begin? {
        StaysSteps(s, ops, m, n, key, true, false);
        SameDecision(s, ops, m, n, key, true, false, view);
      }
    }
  }

  /** Of the last operation. */
  lemma StaysLast(s: Plain, ops: seq<Operation>, n: nat, next: nat, key: string)
    requires next == n + 1 <= |ops|
    ensures !Writes(ops[n], key) ==> !Stays(s, ops, next, n, key, false) && !Stays(s, ops, next, n, key, true)
    ensures At(s, ops, n).saved.Some? ==> !Stays(s, ops, next, n, key, true)
  {
    hide At;
  }

  /** After any run from outside a transaction, a key has the value of the last write to it that was
      accepted and not rolled back, and the value it had before if there is none. */
  lemma LastWriteWins(s: Plain, ops: seq<Operation>, key: string)
    requires s.saved.None?
    ensures var final := Read(RunAll(s, ops).view, key);
            && (forall j: nat :: LastWrite(s, ops, |ops|, j, key, false) ==> final == Written(ops[j]))
            && ((forall j: nat :: !Stays(s, ops, |ops|, j, key, false)) ==> final == Read(s.view, key))
  {
    hide At, Read, Stays, LastWrite, RunAll;
    AtEnd(s, ops);
    ViewDecided(s, ops, |ops|, key);
  }

  // ---------- the overlay ----------

  /** The main data with the staged writes and deletions on top. */
  function Overlay(data: map<string, real>, staged: map<string, Option<real>>): map<string, real> {
    map k | k in data.Keys + staged.Keys && (k in staged ==> staged[k].Some?) ::
      if k in staged then staged[k].value else data[k]
  }

  /** Applying one staged change to the data and dropping it from the staging area. */
  lemma ApplyOne(data: map<string, real>, staged: map<string, Option<real>>, key: string)
    requires key in staged
    ensures var data' := if staged[key].Some? then data[key := staged[key].value] else data - {key};
            Overlay(data', staged - {key}) == Overlay(data, staged)
  {
  }

  lemma NothingStaged(data: map<string, real>)
    ensures Overlay(data, map[]) == data
  {
  }

  predicate Distinct(keys: seq<string>) {
    forall i, j :: 0 <= i < j < |keys| ==> keys[i] != keys[j]
  }

  predicate Prefixed(key: string, prefix: string) { prefix <= key }

  class InMemoryStorage {
    var data: map<string, real>
    var transactionData: Option<map<string, Option<real>>>
    var transactionActive: bool

    constructor ()
      ensures Valid() && Abs() == Plain(map[], None)
    {
      data, transactionData, transactionActive := map[], None, false;
    }

    ghost predicate Valid()
      reads this
    {
      && (transactionActive <==> transactionData.Some?)
      && (forall k :: k in data ==> ValidKey(k))
      && (transactionActive ==> forall k :: k in transactionData.value ==> ValidKey(k))
    }

    /** The plain map and snapshot this store stands for. */
    ghost function Abs(): Plain
      reads this
      requires Valid()
    {
      if transactionActive then Plain(Overlay(data, transactionData.value), Some(data)) else Plain(data, None)
    }

    method Get(key: string) returns (value: Option<real>)
      requires Valid()
      ensures value == if key in Abs().view then Some(Abs().view[key]) else None
    {
      if !ValidKey(key) { return None; }
      if transactionActive && transactionData.Some? {
        if key in transactionData.value { return transactionData.value[key]; }
      }
      if key in data { return Some(data[key]); }
      return None;
    }

    method Contains(key: string) returns (found: bool)
      requires Valid()
      ensures found <==> key in Abs().view
    {
      if !ValidKey(key) { return false; }
      if transactionActive && transactionData.Some? {
        if key in transactionData.value { return transactionData.value[key].Some?; }
      }
      return key in data;
    }

    method SetValue(key: string, value: real) returns (error: Option<StorageError>)
      requires Valid()
      modifies this
      ensures Valid() && (Abs(), error) == Respond(old(Abs()), Set(key, value))
    {
      if !ValidKey(key) { return Some(InvalidKey); }
      if transactionActive {
        if transactionData.None? { return Some(TransactionError); }
        transactionData := Some(transactionData.value[key := Some(value)]);
        assert Overlay(data, transactionData.value) == Overlay(data, old(transactionData.value))[key := value];
      } else {
        data := data[key := value];
      }
      return None;
    }

    method DeleteKey(key: string) returns (error: Option<StorageError>)
      requires Valid()
      modifies this
      ensures Valid() && (Abs(), error) == Respond(old(Abs()), Delete(key))
    {
      if !ValidKey(key) { return Some(InvalidKey); }
      if transactionActive {
        if transactionData.None? { return Some(TransactionError); }
        transactionData := Some(transactionData.value[key := None]);
        assert Overlay(data, transactionData.value) == Overlay(data, old(transactionData.value)) - {key};
      } else {
        data := data - {key};
      }
      return None;
    }

    method BeginTransaction() returns (error: Option<StorageError>)
      requires Valid()
      modifies this
      ensures Valid() && (Abs(), error) == Respond(old(Abs()), Begin)
    {
      if transactionActive { return Some(TransactionError); }
      transactionData := Some(map[]);
      transactionActive := true;
      assert Overlay(data, map[]) == data;
      return None;
    }

    /** Applies the staged changes in any order. */
    method CommitTransaction() returns (error: Option<StorageError>)
      requires Valid()
      modifies this
      ensures Valid() && (Abs(), error) == Respond(old(Abs()), Commit)
    {
      if !transactionActive { return Some(NoTransaction); }
      if transactionData.Some? {
        hide Overlay, ValidKey;
        var staged := transactionData.value;
        var rest := staged;
        while rest != map[]
          invariant transactionActive == old(transactionActive) && transactionData == old(transactionData)
          invariant forall k :: k in rest ==> k in staged
          invariant forall k :: k in data ==> ValidKey(k)
          invariant Overlay(data, rest) == Overlay(old(data), staged)
          decreases rest.Keys
        {
          var key :| key in rest;
          ApplyOne(data, rest, key);
          match rest[key] {
            case Some(value) => data := data[key := value];
            case None => data := data - {key};
          }
          rest := rest - {key};
        }
        NothingStaged(data);
      }
      transactionData := None;
      transactionActive := false;
      return None;
    }

    method RollbackTransaction() returns (error: Option<StorageError>)
      requires Valid()
      modifies this
      ensures Valid() && (Abs(), error) == Respond(old(Abs()), Rollback)
    {
      if !transactionActive { return Some(NoTransaction); }
      transactionData := None;
      transactionActive := false;
      return None;
    }

    /** The keys of the current view with the prefix, each once. */
    method ListKeys(prefix: string) returns (keys: seq<string>)
      requires Valid()
      ensures forall k :: k in keys <==> k in Abs().view && Prefixed(k, prefix)
      ensures Distinct(keys)
    {
      keys := [];
      var rest := data.Keys;
      while rest != {}
        invariant rest <= data.Keys
        invariant forall k :: k in keys <==> k in data && k !in rest && Prefixed(k, prefix)
        invariant Distinct(keys)
      {
        var key :| key in rest;
        rest := rest - {key};
        if Prefixed(key, prefix) { keys := keys + [key]; }
      }
      if transactionActive && transactionData.Some? {
        var staged := transactionData.value;
        var todo := staged.Keys;
        while todo != {}
          invariant todo <= staged.Keys
          invariant forall k :: k in keys <==>
                      Prefixed(k, prefix) && (if k in staged && k !in todo then staged[k].Some? else k in data)
          invariant Distinct(keys)
        {
          var key :| key in todo;
          todo := todo - {key};
          if Prefixed(key, prefix) {
            match staged[key] {
              case Some(_) => if key !in keys { keys := keys + [key]; }
              case None => keys := Retain(keys, key);
            }
          }
        }
      }
    }
  }

  /** Drops every occurrence of one key. */
  function Retain(keys: seq<string>, key: string): (r: seq<string>)
    ensures forall k :: k in r <==> k in keys && k != key
    ensures Distinct(keys) ==> Distinct(r)
  {
    if keys == [] then []
    else
      var rest := Retain(keys[1..], key);
      assert Distinct(keys) ==> Distinct(keys[1..]) && keys[0] !in keys[1..];
      if keys[0] == key then rest else [keys[0]] + rest
  }

  // ---------- whole runs ----------

  method Perform(store: InMemoryStorage, op: Operation) returns (error: Option<StorageError>)
    requires store.Valid()
    modifies store
    ensures store.Valid() && (store.Abs(), error) == Respond(old(store.Abs()), op)
  {
    match op
    case Set(k, v) => error := store.SetValue(k, v);
    case Delete(k) => error := store.DeleteKey(k);
    case Begin => error := store.BeginTransaction();
    case Commit => error := store.CommitTransaction();
    case Rollback => error := store.RollbackTransaction();
  }

  /** Every sequence of operations does to the store what it does to the plain map with a snapshot,
      and gets the same answers. */
  method PerformAll(store: InMemoryStorage, ops: seq<Operation>) returns (replies: seq<Option<StorageError>>)
    requires store.Valid()
    modifies store
    ensures store.Valid() && store.Abs() == RunAll(old(store.Abs()), ops)
    ensures replies == Replies(old(store.Abs()), ops)
  {
    replies := [];
    ghost var start := store.Abs();
    var i := 0;
    assert ops[0..] == ops;
    while i < |ops|
      invariant i <= |ops| && store.Valid()
      invariant RunAll(store.Abs(), ops[i..]) == RunAll(start, ops)
      invariant replies + Replies(store.Abs(), ops[i..]) == Replies(start, ops)
    {
      assert ops[i..][0] == ops[i] && ops[i..][1..] == ops[i + 1..];
      ghost var before := store.Abs();
      var error := Perform(store, ops[i]);
      assert replies + Replies(before, ops[i..]) == (replies + [error]) + Replies(store.Abs(), ops[i + 1..]);
      replies := replies + [error];
      i := i + 1;
    }
    assert ops[i..] == [];
  }
}
