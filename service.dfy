/** The user-list service: it enriches the users a query returned, one
    worker per user, and rebuilds the list in the order of the query.

    The workers' concurrency is replaced by three inputs: the outcome of
    each user's short-id generation, the order in which the workers run
    (a permutation of the users' positions; each map insertion is atomic
    under the mutex), and which case the final select takes when both of
    its cases are ready. */
module Service {

  datatype Option<T> = None | Some(value: T)

  /** A user id. The source's ids are unsigned 64-bit values; here they are
      only compared and used as map keys, so their width does not matter. */
  type Id = nat

  /** An error value, passed through unchanged. */
  type Error = string

  /** A row of the user table. The timestamps are already in their text form. */
  datatype UserModel = UserModel(id: Id, username: string, password: string, createdAt: string, updatedAt: string)

  /** A user as the list reports it. */
  datatype UserInfo = UserInfo(id: Id, username: string, sayHello: string, password: string, createdAt: string, updatedAt: string)

  /** What short-id generation produced for one user. */
  datatype ShortIdOutcome = ShortId(value: string) | ShortIdError(error: Error)

  /** What the user query returned: the users, the total count and maybe an error. */
  datatype QueryResult = QueryResult(users: seq<UserModel>, count: nat, err: Option<Error>)

  /** The record a successful worker stores for its user. */
  function Enrich(u: UserModel, shortId: string): UserInfo
  {
    UserInfo(u.id, u.username, "Hello " + shortId, u.password, u.createdAt, u.updatedAt)
  }

  /** The ids of the users, in their order: the order index. */
  function Ids(users: seq<UserModel>): seq<Id>
  {
    seq(|users|, i requires 0 <= i < |users| => users[i].id)
  }

  /** No two users share an id. */
  predicate UniqueIds(users: seq<UserModel>)
  {
    forall a, b :: 0 <= a < |users| && 0 <= b < |users| && users[a].id == users[b].id ==> a == b
  }

  // ---------------------------------------------------------------------
  // Completion orders

  /** The positions 0 .. n-1 in increasing order. */
  function Range(n: nat): seq<nat>
  {
    seq(n, i => i)
  }

  predicate InRange(sched: seq<nat>, n: nat)
  {
    forall k :: 0 <= k < |sched| ==> sched[k] < n
  }

  /** An order in which the n workers finish: each position exactly once. */
  predicate IsSchedule(sched: seq<nat>, n: nat)
  {
    InRange(sched, n) && multiset(sched) == multiset(Range(n))
  }

  /** Every worker appears somewhere in a completion order. */
  lemma ScheduleCovers(sched: seq<nat>, n: nat, i: nat)
    requires IsSchedule(sched, n) && i < n
    ensures i in sched
  {
    assert Range(n)[i] == i;
    assert i in multiset(Range(n));
  }

  // ---------------------------------------------------------------------
  // The result table

  /** The effect of one worker on the table: a success stores the user's
      record under its id; a failure leaves the table alone. */
  function Step(m: map<Id, UserInfo>, u: UserModel, out: ShortIdOutcome): (r: map<Id, UserInfo>)
    ensures out.ShortIdError? ==> r == m
    ensures out.ShortId? ==> r.Keys == m.Keys + {u.id} && r[u.id] == Enrich(u, out.value)
    ensures forall k :: k in m && k != u.id ==> r[k] == m[k]
  {
    match out
    case ShortId(s) => m[u.id := Enrich(u, s)]
    case ShortIdError(_) => m
  }

  /** The table after the workers have run in the order sched. */
  function Table(users: seq<UserModel>, outs: seq<ShortIdOutcome>, sched: seq<nat>): map<Id, UserInfo>
    requires |outs| == |users| && InRange(sched, |users|)
  {
    if sched == [] then map[]
    else
      var last := sched[|sched| - 1];
      Step(Table(users, outs, sched[..|sched| - 1]), users[last], outs[last])
  }

  /** Worker i stores a record under key k. */
  predicate Writes(users: seq<UserModel>, outs: seq<ShortIdOutcome>, i: nat, k: Id)
    requires |outs| == |users| && i < |users|
  {
    outs[i].ShortId? && users[i].id == k
  }

  /** The position in sched of the last worker that stores under key k. */
  function LastWrite(users: seq<UserModel>, outs: seq<ShortIdOutcome>, sched: seq<nat>, k: Id): (p: Option<nat>)
    requires |outs| == |users| && InRange(sched, |users|)
    ensures p.Some? ==> p.value < |sched| && Writes(users, outs, sched[p.value], k)
    ensures p.Some? ==> forall q :: p.value < q < |sched| ==> !Writes(users, outs, sched[q], k)
    ensures p.None? ==> forall q :: 0 <= q < |sched| ==> !Writes(users, outs, sched[q], k)
  {
    if sched == [] then None
    else if Writes(users, outs, sched[|sched| - 1], k) then Some(|sched| - 1)
    else LastWrite(users, outs, sched[..|sched| - 1], k)
  }

  /** The last insertion wins: key k is in the table exactly when some worker
      stored under it, and then it holds the record of the last such worker. */
  lemma {:induction false} TableIsLastWrite(users: seq<UserModel>, outs: seq<ShortIdOutcome>, sched: seq<nat>, k: Id)
    requires |outs| == |users| && InRange(sched, |users|)
    ensures k in Table(users, outs, sched) <==> LastWrite(users, outs, sched, k).Some?
    ensures k in Table(users, outs, sched) ==>
      var i := sched[LastWrite(users, outs, sched, k).value];
      Table(users, outs, sched)[k] == Enrich(users[i], outs[i].value)
  {
    if sched != [] {
      TableIsLastWrite(users, outs, sched[..|sched| - 1], k);
    }
  }

  // ---------------------------------------------------------------------
  // Reassembly

  /** A map miss reads as nil. */
  function Lookup(m: map<Id, UserInfo>, id: Id): Option<UserInfo>
  {
    if id in m then Some(m[id]) else None
  }

  /** The looked-up entries in the order of ids. */
  function Rebuild(ids: seq<Id>, m: map<Id, UserInfo>): seq<Option<UserInfo>>
  {
    seq(|ids|, i requires 0 <= i < |ids| => Lookup(m, ids[i]))
  }

  /** What position i of the list holds when ids are unique: the user's
      record if its worker succeeded, nil if it failed. */
  function Slot(users: seq<UserModel>, outs: seq<ShortIdOutcome>, i: nat): Option<UserInfo>
    requires |outs| == |users| && i < |users|
  {
    match outs[i]
    case ShortId(s) => Some(Enrich(users[i], s))
    case ShortIdError(_) => None
  }

  /** With unique ids the rebuilt list holds, at each position, that user's
      own record (or nil when its worker failed), whatever the completion order. */
  lemma OrderPreserved(users: seq<UserModel>, outs: seq<ShortIdOutcome>, sched: seq<nat>)
    requires |outs| == |users| && IsSchedule(sched, |users|) && UniqueIds(users)
    ensures |Rebuild(Ids(users), Table(users, outs, sched))| == |users|
    ensures forall i :: 0 <= i < |users| ==> Rebuild(Ids(users), Table(users, outs, sched))[i] == Slot(users, outs, i)
  {
    var m := Table(users, outs, sched);
    forall i | 0 <= i < |users|
      ensures Rebuild(Ids(users), m)[i] == Slot(users, outs, i)
    {
      var k := users[i].id;
      TableIsLastWrite(users, outs, sched, k);
      ScheduleCovers(sched, |users|, i);
      var q :| 0 <= q < |sched| && sched[q] == i;
      var p := LastWrite(users, outs, sched, k);
      if outs[i].ShortId? {
        assert Writes(users, outs, sched[q], k);
        assert p.Some? && sched[p.value] == i;
      } else {
        assert p.None?;
      }
    }
  }

  /** With unique ids the list does not depend on the completion order. */
  lemma OrderIndependent(users: seq<UserModel>, outs: seq<ShortIdOutcome>, sched: seq<nat>, sched': seq<nat>)
    requires |outs| == |users| && IsSchedule(sched, |users|) && IsSchedule(sched', |users|) && UniqueIds(users)
    ensures Rebuild(Ids(users), Table(users, outs, sched)) == Rebuild(Ids(users), Table(users, outs, sched'))
  {
    OrderPreserved(users, outs, sched);
    OrderPreserved(users, outs, sched');
  }

  /** Users that share an id show the same entry wherever they stand in the
      list: the record of the last worker with that id to succeed, or nil
      when none succeeded. */
  lemma SharedIdSharesEntry(users: seq<UserModel>, outs: seq<ShortIdOutcome>, sched: seq<nat>, i: nat, j: nat)
    requires |outs| == |users| && InRange(sched, |users|)
    requires i < |users| && j < |users| && users[i].id == users[j].id
    ensures
      var list := Rebuild(Ids(users), Table(users, outs, sched));
      var p := LastWrite(users, outs, sched, users[i].id);
      && list[i] == list[j]
      && (p.None? ==> list[i] == None)
      && (p.Some? ==> list[i] == Some(Enrich(users[sched[p.value]], outs[sched[p.value]].value)))
  {
    TableIsLastWrite(users, outs, sched, users[i].id);
  }

  // ---------------------------------------------------------------------
  // Failures

  /** The errors of one outcome. */
  function ErrorOf(out: ShortIdOutcome): seq<Error>
  {
    match out
    case ShortId(_) => []
    case ShortIdError(e) => [e]
  }

  /** The errors the workers report, in the order they report them. */
  function ErrorsIn(outs: seq<ShortIdOutcome>, sched: seq<nat>): seq<Error>
    requires InRange(sched, |outs|)
  {
    if sched == [] then []
    else ErrorsIn(outs, sched[..|sched| - 1]) + ErrorOf(outs[sched[|sched| - 1]])
  }

  /** The number of users whose short-id generation fails. */
  function Failures(outs: seq<ShortIdOutcome>): nat
  {
    if outs == [] then 0
    else Failures(outs[..|outs| - 1]) + |ErrorOf(outs[|outs| - 1])|
  }

  lemma {:induction false} ErrorsInConcat(outs: seq<ShortIdOutcome>, a: seq<nat>, b: seq<nat>)
    requires InRange(a, |outs|) && InRange(b, |outs|)
    ensures InRange(a + b, |outs|)
    ensures ErrorsIn(outs, a + b) == ErrorsIn(outs, a) + ErrorsIn(outs, b)
  {
    if b != [] {
      var b' := b[..|b| - 1];
      assert (a + b)[..|a + b| - 1] == a + b';
      ErrorsInConcat(outs, a, b');
    } else {
      assert a + b == a;
    }
  }

  /** Taking one worker out of an order takes out its errors. */
  lemma RemoveOne(outs: seq<ShortIdOutcome>, s: seq<nat>, j: nat)
    requires InRange(s, |outs|) && j < |s|
    ensures InRange(s[..j] + s[j + 1..], |outs|)
    ensures |ErrorsIn(outs, s)| == |ErrorsIn(outs, s[..j] + s[j + 1..])| + |ErrorOf(outs[s[j]])|
  {
    var x := s[j];
    assert s == s[..j] + [x] + s[j + 1..];
    ErrorsInConcat(outs, s[..j], [x]);
    ErrorsInConcat(outs, s[..j] + [x], s[j + 1..]);
    ErrorsInConcat(outs, s[..j], s[j + 1..]);
    assert ErrorsIn(outs, [x]) == ErrorOf(outs[x]) by {
      assert [x][..0] == [];
    }
  }

  lemma MultisetRemove(s: seq<nat>, j: nat)
    requires j < |s|
    ensures multiset(s[..j] + s[j + 1..]) == multiset(s) - multiset{s[j]}
  {
    assert s == s[..j] + [s[j]] + s[j + 1..];
  }

  /** Two orders of the same workers report the same number of errors. */
  lemma {:induction false} ErrorCountPermutation(outs: seq<ShortIdOutcome>, s: seq<nat>, s': seq<nat>)
    requires InRange(s, |outs|) && InRange(s', |outs|) && multiset(s) == multiset(s')
    ensures |ErrorsIn(outs, s)| == |ErrorsIn(outs, s')|
    decreases |s|
  {
    if s == [] {
      assert |multiset(s')| == 0;
    } else {
      var x := s[|s| - 1];
      var init := s[..|s| - 1];
      assert x in multiset(s');
      var j :| 0 <= j < |s'| && s'[j] == x;
      var rest := s'[..j] + s'[j + 1..];
      MultisetRemove(s', j);
      MultisetRemove(s, |s| - 1);
      assert s[..|s| - 1] + s[|s|..] == init;
      RemoveOne(outs, s', j);
      ErrorCountPermutation(outs, init, rest);
    }
  }

  lemma {:induction false} ErrorsInRange(outs: seq<ShortIdOutcome>, n: nat)
    requires n <= |outs|
    ensures InRange(Range(n), |outs|)
    ensures |ErrorsIn(outs, Range(n))| == Failures(outs[..n])
  {
    if n > 0 {
      assert Range(n)[..n - 1] == Range(n - 1);
      assert outs[..n][..n - 1] == outs[..n - 1];
      ErrorsInRange(outs, n - 1);
    }
  }

  /** No user fails exactly when every user's worker produces a short id. */
  lemma {:induction false} NoFailuresAllSucceed(outs: seq<ShortIdOutcome>)
    ensures Failures(outs) == 0 <==> forall i :: 0 <= i < |outs| ==> outs[i].ShortId?
  {
    if outs != [] {
      var init := outs[..|outs| - 1];
      NoFailuresAllSucceed(init);
      assert forall i :: 0 <= i < |init| ==> init[i] == outs[i];
    }
  }

  /** However the workers are ordered, one error is reported per failing user. */
  lemma FailuresAnyOrder(outs: seq<ShortIdOutcome>, sched: seq<nat>)
    requires IsSchedule(sched, |outs|)
    ensures |ErrorsIn(outs, sched)| == Failures(outs)
  {
    ErrorsInRange(outs, |outs|);
    assert outs[..|outs|] == outs;
    ErrorCountPermutation(outs, sched, Range(|outs|));
  }

  // ---------------------------------------------------------------------
  // Shared state of one call

  /** The table the workers fill, keyed by user id. Its mutex is left out:
      each insertion is atomic. */
  class UserList {
    var idMap: map<Id, UserInfo>

    constructor ()
      ensures idMap == map[]
    {
      idMap := map[];
    }

    method Put(id: Id, info: UserInfo)
      modifies this
      ensures idMap == old(idMap)[id := info]
    {
      idMap := idMap[id := info];
    }
  }

  /** The error channel: a buffer of one slot, and the values of the senders
      that found the slot full and wait. */
  class ErrChan {
    var buffer: seq<Error>
    var blocked: seq<Error>

    ghost predicate Valid()
      reads this
    {
      |buffer| <= 1 && (buffer == [] ==> blocked == [])
    }

    constructor ()
      ensures Valid() && buffer == [] && blocked == []
    {
      buffer, blocked := [], [];
    }

    /** Sends e; delivered is false when the sender has to wait. */
    method Send(e: Error) returns (delivered: bool)
      requires Valid()
      modifies this
      ensures Valid()
      ensures delivered <==> old(buffer) == []
      ensures buffer + blocked == old(buffer + blocked) + [e]
      ensures |blocked| == |old(blocked)| + (if delivered then 0 else 1)
    {
      delivered := buffer == [];
      if delivered {
        buffer := [e];
      } else {
        blocked := blocked + [e];
      }
    }

    /** Takes the buffered value; the first waiting sender, if any, fills the slot. */
    method Receive() returns (e: Error)
      requires Valid() && buffer != []
      modifies this
      ensures Valid()
      ensures e == old(buffer)[0]
      ensures old(blocked) == [] ==> buffer == [] && blocked == []
      ensures old(blocked) != [] ==> buffer == [old(blocked)[0]] && blocked == old(blocked)[1..]
      ensures buffer + blocked == old(buffer + blocked)[1..]
    {
      e := buffer[0];
      if blocked == [] {
        buffer := [];
      } else {
        buffer, blocked := [blocked[0]], blocked[1..];
      }
    }
  }

  /** One worker: generate the short id, then either report the error or
      store the user's record. done tells whether its deferred wg.Done runs,
      which it does not while it waits on a full error channel. */
  method Worker(u: UserModel, out: ShortIdOutcome, list: UserList, errChan: ErrChan) returns (done: bool)
    requires errChan.Valid()
    modifies list, errChan
    ensures errChan.Valid()
    ensures list.idMap == Step(old(list.idMap), u, out)
    ensures errChan.buffer + errChan.blocked == old(errChan.buffer + errChan.blocked) + ErrorOf(out)
    ensures |errChan.blocked| == |old(errChan.blocked)| + (if done then 0 else 1)
  {
    match out
    case ShortIdError(e) =>
      done := errChan.Send(e);
    case ShortId(shortId) =>
      list.Put(u.id, Enrich(u, shortId));
      done := true;
  }

  // ---------------------------------------------------------------------
  // The service

  /** Records the users' ids in their order. */
  method CaptureOrder(users: seq<UserModel>) returns (ids: seq<Id>)
    ensures |ids| == |users|
    ensures forall i :: 0 <= i < |users| ==> ids[i] == users[i].id
  {
    ids := [];
    for i := 0 to |users|
      invariant |ids| == i
      invariant forall j :: 0 <= j < i ==> ids[j] == users[j].id
    {
      ids := ids + [users[i].id];
    }
  }

  /** Runs the workers in the order sched. pending is the WaitGroup's
      counter afterwards: one per worker still waiting on the error channel. */
  method RunWorkers(users: seq<UserModel>, outcomes: seq<ShortIdOutcome>, sched: seq<nat>,
                    userList: UserList, errChan: ErrChan) returns (pending: nat)
    requires |outcomes| == |users| && InRange(sched, |users|) && |sched| == |users|
    requires userList.idMap == map[] && errChan.buffer == [] && errChan.blocked == []
    modifies userList, errChan
    ensures userList.idMap == Table(users, outcomes, sched)
    ensures errChan.Valid() && errChan.buffer + errChan.blocked == ErrorsIn(outcomes, sched)
    ensures pending == |errChan.blocked|
  {
    // wg.Add(1) for each launched worker
    pending := |users|;
    for k := 0 to |sched|
      invariant userList.idMap == Table(users, outcomes, sched[..k])
      invariant errChan.Valid()
      invariant errChan.buffer + errChan.blocked == ErrorsIn(outcomes, sched[..k])
      invariant pending == |users| - k + |errChan.blocked|
    {
      assert sched[..k + 1][..k] == sched[..k];
      var i := sched[k];
      var done := Worker(users[i], outcomes[i], userList, errChan);
      if done {
        pending := pending - 1;
      }
    }
    assert sched[..|sched|] == sched;
  }

  /** Looks every id up in the table, in the order of ids. */
  method Reassemble(ids: seq<Id>, idMap: map<Id, UserInfo>) returns (list: seq<Option<UserInfo>>)
    ensures |list| == |ids|
    ensures forall t :: 0 <= t < |ids| ==> list[t] == Lookup(idMap, ids[t])
  {
    list := [];
    for j := 0 to |ids|
      invariant |list| == j
      invariant forall t :: 0 <= t < j ==> list[t] == Lookup(idMap, ids[t])
    {
      list := list + [Lookup(idMap, ids[j])];
    }
  }

  /** Lists the users of a query, enriched, in the query's order.

      When the query fails its error and count come back with no list.
      Otherwise the select sees the error case ready once some worker
      failed, and the finished case ready once every worker returned; a
      second failing worker waits forever on the full channel, so with two
      or more failures only the error can come back. With exactly one
      failure preferError decides, and the list then holds nil where the
      failed user's record would be. */
  method ListUser(query: QueryResult, outcomes: seq<ShortIdOutcome>, schedule: seq<nat>, preferError: bool)
    returns (infos: Option<seq<Option<UserInfo>>>, count: nat, err: Option<Error>)
    requires query.err.None? ==> |outcomes| == |query.users| && IsSchedule(schedule, |query.users|)
    ensures count == query.count
    ensures query.err.Some? ==> infos == None && err == query.err
    ensures query.err.None? ==>
      (err.Some? <==> Failures(outcomes) >= 2 || (Failures(outcomes) == 1 && preferError))
    ensures query.err.None? && err.Some? ==>
      infos == None && |ErrorsIn(outcomes, schedule)| > 0 && err == Some(ErrorsIn(outcomes, schedule)[0])
    ensures query.err.None? && err.None? ==>
      infos == Some(Rebuild(Ids(query.users), Table(query.users, outcomes, schedule)))
    ensures query.err.None? && err.None? && UniqueIds(query.users) ==>
      infos.Some? && |infos.value| == |query.users| &&
      forall i :: 0 <= i < |query.users| ==> infos.value[i] == Slot(query.users, outcomes, i)
    ensures query.err.None? && query.users == [] ==> infos == Some([]) && err == None
  {
    count := query.count;
    if query.err.Some? {
      return None, count, query.err;
    }
    var users := query.users;
    var ids := CaptureOrder(users);
    assert ids == Ids(users);

    var userList := new UserList();
    var errChan := new ErrChan();
    assert |schedule| == |users| by {
      assert |multiset(schedule)| == |multiset(Range(|users|))|;
    }
    var pending := RunWorkers(users, outcomes, schedule, userList, errChan);
    FailuresAnyOrder(outcomes, schedule);

    var finishedReady := pending == 0;
    var errReady := errChan.buffer != [];
    if errReady && (preferError || !finishedReady) {
      var e := errChan.Receive();
      return None, count, Some(e);
    }

    // Restore the original order.
    var list := Reassemble(ids, userList.idMap);
    assert list == Rebuild(ids, userList.idMap);
    if UniqueIds(users) {
      OrderPreserved(users, outcomes, schedule);
    }
    return Some(list), count, None;
  }
}
