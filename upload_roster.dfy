/**
 * The roster importer `uploadAuthorizedUsers`: fetch and parse the roster CSV,
 * then open a store client and upsert the records into `authorized_users` in
 * batches of at most 100, stopping at the first batch the store rejects.
 */
module UploadRoster {
  import opened Wrappers
  import opened Records
  import RosterCsv

  const BatchSize: nat := 100
  const AuthorizedTable: string := "authorized_users"
  const ConflictKey: string := "email"

  /** What was caught: a thrown error's message, or the store's error object itself. */
  datatype UploadError = Thrown(message: string) | Rejected(error: StoreError)

  /** `{ success: true, count }` or `{ success: false, error }`. */
  datatype UploadResult = Uploaded(count: nat) | UploadFailed(error: UploadError)

  function Min(a: int, b: int): int { if a <= b then a else b }

  /** The consecutive slices of at most `BatchSize` records the loop sends, in order. */
  function Batches(users: seq<AuthorizedUser>): seq<seq<AuthorizedUser>>
    decreases |users|
  {
    if |users| == 0 then []
    else if |users| <= BatchSize then [users]
    else [users[..BatchSize]] + Batches(users[BatchSize..])
  }

  function Flatten(batches: seq<seq<AuthorizedUser>>): seq<AuthorizedUser>
  {
    if |batches| == 0 then [] else batches[0] + Flatten(batches[1..])
  }

  /**
   * The batches partition the records: concatenated they give the records back
   * in order, none is empty, all but the last are full, and there are
   * ceil(n / 100) of them.
   */
  lemma {:induction false} BatchesPartition(users: seq<AuthorizedUser>)
    ensures Flatten(Batches(users)) == users
    ensures forall k :: 0 <= k < |Batches(users)| ==> 1 <= |Batches(users)[k]| <= BatchSize
    ensures forall k :: 0 <= k < |Batches(users)| - 1 ==> |Batches(users)[k]| == BatchSize
    ensures |Batches(users)| == (|users| + BatchSize - 1) / BatchSize
    decreases |users|
  {
    if |users| > BatchSize {
      BatchesPartition(users[BatchSize..]);
      assert users == users[..BatchSize] + users[BatchSize..];
    }
  }

  /** Batch `b` is the slice `users.slice(100 * b, 100 * b + 100)`. */
  lemma {:induction false} BatchAt(users: seq<AuthorizedUser>, b: nat)
    requires b < |Batches(users)|
    ensures BatchSize * b < |users|
    ensures Batches(users)[b] == users[BatchSize * b .. Min(BatchSize * b + BatchSize, |users|)]
    decreases b
  {
    if b > 0 {
      BatchAt(users[BatchSize..], b - 1);
      assert users[BatchSize..][BatchSize * (b - 1) .. Min(BatchSize * (b - 1) + BatchSize, |users| - BatchSize)]
          == users[BatchSize * b .. Min(BatchSize * b + BatchSize, |users|)];
    }
  }

  /** Batch b exists exactly when the loop index 100 * b is still inside the records. */
  lemma BatchesExact(users: seq<AuthorizedUser>, b: nat)
    ensures b < |Batches(users)| <==> BatchSize * b < |users|
  {
    BatchesPartition(users);
  }

  /** The index of the first store reply, among the first n, that is an error; n when there is none. */
  function FirstRejected(reply: nat -> Option<StoreError>, n: nat): (k: nat)
    ensures k <= n
    ensures forall j :: 0 <= j < k ==> reply(j).None?
    ensures k < n ==> reply(k).Some?
  {
    if n == 0 then 0
    else
      var k := FirstRejected(reply, n - 1);
      if k < n - 1 then k else if reply(n - 1).Some? then n - 1 else n
  }

  /** The upsert calls for the given batches, in order. */
  function UpsertCalls(batches: seq<seq<AuthorizedUser>>): (calls: seq<RosterCall>)
    ensures |calls| == |batches|
    ensures forall k :: 0 <= k < |batches| ==> calls[k] == Upsert(AuthorizedTable, batches[k], ConflictKey)
  {
    seq(|batches|, k requires 0 <= k < |batches| => Upsert(AuthorizedTable, batches[k], ConflictKey))
  }

  /** The calls of an upload of `users`: the client, then every batch up to and including the first rejected one. */
  function UploadCalls(users: seq<AuthorizedUser>, reply: nat -> Option<StoreError>): seq<RosterCall>
  {
    var batches := Batches(users);
    var k := FirstRejected(reply, |batches|);
    [CreateClient] + UpsertCalls(batches[..if k < |batches| then k + 1 else k])
  }

  /** The result of an upload of `users`: the first rejection, or the number of records. */
  function UploadOutcome(users: seq<AuthorizedUser>, reply: nat -> Option<StoreError>): UploadResult
  {
    var batches := Batches(users);
    var k := FirstRejected(reply, |batches|);
    if k < |batches| then UploadFailed(Rejected(reply(k).value)) else Uploaded(|users|)
  }

  /** The first rejection is determined by the replies: any k that is rejected after k clean replies is it. */
  lemma {:induction false} FirstRejectedIs(reply: nat -> Option<StoreError>, n: nat, k: nat)
    requires k <= n
    requires forall j :: 0 <= j < k ==> reply(j).None?
    requires k < n ==> reply(k).Some?
    ensures FirstRejected(reply, n) == k
  {
    if n > 0 && k < n {
      if k < n - 1 {
        FirstRejectedIs(reply, n - 1, k);
      } else {
        FirstRejectedIs(reply, n - 1, n - 1);
      }
    }
  }

  /** The batch loop: one upsert per batch, in order, returning at the first batch the store rejects. */
  method UploadBatches(users: seq<AuthorizedUser>, reply: nat -> Option<StoreError>)
    returns (result: UploadResult, calls: seq<RosterCall>)
    ensures result == UploadOutcome(users, reply)
    ensures calls == UploadCalls(users, reply)
  {
    calls := [CreateClient];
    ghost var batches := Batches(users);
    var i := 0;
    var sent := 0;
    while i < |users|
      invariant 0 <= sent <= |batches|
      invariant i == BatchSize * sent
      invariant calls == [CreateClient] + UpsertCalls(batches[..sent])
      invariant forall j :: 0 <= j < sent ==> reply(j).None?
      decreases |users| - i
    {
      BatchesExact(users, sent);
      BatchAt(users, sent);
      var batch := users[i .. Min(i + BatchSize, |users|)];
      assert batches[..sent + 1] == batches[..sent] + [batch];
      calls := calls + [Upsert(AuthorizedTable, batch, ConflictKey)];
      var error := reply(sent);
      if error.Some? {
        FirstRejectedIs(reply, |batches|, sent);
        return UploadFailed(Rejected(error.value)), calls;
      }
      i := i + BatchSize;
      sent := sent + 1;
    }
    BatchesExact(users, sent);
    FirstRejectedIs(reply, |batches|, |batches|);
    assert batches[..sent] == batches;
    return Uploaded(|users|), calls;
  }

  /**
   * The importer, with the fetch outcome and the store's reply to the i-th
   * upsert call (`reply(i)`, None for success) as inputs. A fetch failure or a
   * parse failure is caught before any store call; otherwise the calls and the
   * result are those of the batched upload.
   */
  method UploadAuthorizedUsers(fetched: FetchOutcome, reply: nat -> Option<StoreError>)
    returns (result: UploadResult, calls: seq<RosterCall>)
    ensures fetched.FetchThrew? ==> result == UploadFailed(Thrown(fetched.message)) && calls == []
    ensures fetched.Fetched? && RosterCsv.ParseRoster(fetched.text).Failure? ==>
      result == UploadFailed(Thrown(RosterCsv.ErrorMessage(RosterCsv.ParseRoster(fetched.text).error)))
      && calls == []
    ensures fetched.Fetched? && RosterCsv.ParseRoster(fetched.text).Success? ==>
      var users := RosterCsv.ParseRoster(fetched.text).value;
      result == UploadOutcome(users, reply) && calls == UploadCalls(users, reply)
  {
    calls := [];
    if fetched.FetchThrew? {
      return UploadFailed(Thrown(fetched.message)), calls;
    }
    var parsed := RosterCsv.ParseRosterText(fetched.text);
    if parsed.Failure? {
      return UploadFailed(Thrown(RosterCsv.ErrorMessage(parsed.error))), calls;
    }
    result, calls := UploadBatches(parsed.value, reply);
  }

  /** The records the calls hand to the store, in call order. */
  function SentRecords(calls: seq<RosterCall>): seq<AuthorizedUser>
  {
    if |calls| == 0 then []
    else (if calls[0].Upsert? then calls[0].rows else []) + SentRecords(calls[1..])
  }

  lemma {:induction false} SentRecordsOfUpserts(batches: seq<seq<AuthorizedUser>>)
    ensures SentRecords(UpsertCalls(batches)) == Flatten(batches)
  {
    if |batches| > 0 {
      assert UpsertCalls(batches)[1..] == UpsertCalls(batches[1..]);
      SentRecordsOfUpserts(batches[1..]);
    }
  }

  /** The first m batches hold the first 100 * m records (all of them once m is large enough). */
  lemma {:induction false} FlattenFirstBatches(users: seq<AuthorizedUser>, m: nat)
    requires m <= |Batches(users)|
    ensures Flatten(Batches(users)[..m]) == users[..Min(BatchSize * m, |users|)]
    decreases m
  {
    if m > 0 {
      var bs := Batches(users);
      if |users| <= BatchSize {
        assert bs[..m] == [users];
        assert Flatten([users]) == users + Flatten([]);
      } else {
        var rest := users[BatchSize..];
        FlattenFirstBatches(rest, m - 1);
        assert bs[..m] == [users[..BatchSize]] + Batches(rest)[..m - 1];
        assert (bs[..m])[1..] == Batches(rest)[..m - 1];
        assert users[..Min(BatchSize * m, |users|)] == users[..BatchSize] + rest[..Min(BatchSize * (m - 1), |rest|)];
      }
    }
  }

  /**
   * What reaches the store: when every batch is accepted, each record exactly
   * once and in order, and the reported count is the number of records; when
   * batch k is rejected, exactly the records of batches 0 .. k and nothing after.
   */
  lemma UploadSendsPrefix(users: seq<AuthorizedUser>, reply: nat -> Option<StoreError>)
    ensures UploadOutcome(users, reply).Uploaded? ==>
      SentRecords(UploadCalls(users, reply)) == users && UploadOutcome(users, reply).count == |users|
    ensures UploadOutcome(users, reply).UploadFailed? ==>
      var k := FirstRejected(reply, |Batches(users)|);
      SentRecords(UploadCalls(users, reply)) == users[..Min(BatchSize * (k + 1), |users|)]
      && UploadOutcome(users, reply).error == Rejected(reply(k).value)
  {
    var bs := Batches(users);
    var k := FirstRejected(reply, |bs|);
    var m := if k < |bs| then k + 1 else k;
    var calls := UploadCalls(users, reply);
    assert calls[1..] == UpsertCalls(bs[..m]);
    SentRecordsOfUpserts(bs[..m]);
    FlattenFirstBatches(users, m);
    BatchesExact(users, |bs|);
    assert users[..|users|] == users;
  }
}
