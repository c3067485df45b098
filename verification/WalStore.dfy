/** wal.Store: the mutable log with its two-transaction drain. */
module WalStore {
  import opened ByteOrder
  import opened Messages
  import opened Numerals
  import opened Wal
  import opened WalKeys
  import opened Wrappers

  /** What iteration finds under a key. Expired entries may still surface; a garbled
      value is one that does not decode. */
  datatype Stored = Live(msg: Message) | Expired | Garbled

  datatype AppendFault = NoFault | EncodeFails | WriteFails
  datatype WalError = EncodeError | SetError | ReadError | DeleteError

  type Entries = map<string, Stored>

  ghost function LiveLog(e: Entries): Log {
    map k | k in e && e[k].Live? :: e[k].msg
  }

  /** The read transaction of a drain, over the keys in iteration order: skip what expired, stop at
      the limit, give up at a value that does not decode. */
  ghost function Scan(e: Entries, ks: seq<string>, limit: nat): (r: Option<seq<string>>)
    requires forall k :: k in ks ==> k in e
    ensures r.Some? ==> forall k :: k in r.value ==> k in LiveLog(e)
  {
    if ks == [] || limit == 0 then Some([])
    else
      match e[ks[0]]
      case Expired => Scan(e, ks[1..], limit)
      case Garbled => None
      case Live(_) =>
        match Scan(e, ks[1..], limit - 1)
        case None => None
        case Some(rest) => Some([ks[0]] + rest)
  }

  ghost function LiveKeys(e: Entries, ks: seq<string>): seq<string>
    requires forall k :: k in ks ==> k in e
  {
    if ks == [] then []
    else (if e[ks[0]].Live? then [ks[0]] else []) + LiveKeys(e, ks[1..])
  }

  lemma {:induction false} LiveKeysMembers(e: Entries, ks: seq<string>)
    requires forall k :: k in ks ==> k in e
    ensures forall k :: k in LiveKeys(e, ks) <==> k in ks && e[k].Live?
  {
    if ks != [] { LiveKeysMembers(e, ks[1..]); }
  }

  lemma {:induction false} LiveKeysAscending(e: Entries, ks: seq<string>)
    requires Ascending(ks) && forall k :: k in ks ==> k in e
    ensures Ascending(LiveKeys(e, ks))
  {
    if ks != [] {
      LiveKeysAscending(e, ks[1..]);
      LiveKeysMembers(e, ks[1..]);
      AscendingCons(ks[0], LiveKeys(e, ks[1..]));
    }
  }

  lemma AscendingCons(k: string, rest: seq<string>)
    ensures Ascending(rest) && (forall j :: j in rest ==> Less(k, j)) ==> Ascending([k] + rest)
  {}

  lemma {:induction false} ScanTakesLive(e: Entries, ks: seq<string>, limit: nat)
    requires forall k :: k in ks ==> k in e
    ensures Scan(e, ks, limit).Some? ==>
              Scan(e, ks, limit).value == LiveKeys(e, ks)[..Min(limit, |LiveKeys(e, ks)|)]
  {
    if ks != [] && limit > 0 {
      var rest := ks[1..];
      match e[ks[0]]
      case Expired => ScanTakesLive(e, rest, limit);
      case Garbled =>
      case Live(_) => ScanTakesLive(e, rest, limit - 1);
    }
  }

  /** A scan that succeeds takes exactly the oldest live entries. */
  lemma ScanIsOldest(e: Entries, limit: nat)
    ensures forall k :: k in Listing(e.Keys) ==> k in e
    ensures var r := Scan(e, Listing(e.Keys), limit);
            r.Some? ==> r.value == OldestKeys(LiveLog(e), limit)
  {
    var all := Listing(e.Keys);
    assert forall k :: k in all <==> k in Elements(all);
    ScanTakesLive(e, all, limit);
    LiveKeysMembers(e, all);
    LiveKeysAscending(e, all);
    AscendingUnique(LiveKeys(e, all), Listing(LiveLog(e).Keys));
  }

  /** Head-of-line blocking, exactly: a scan fails iff some value that does not decode sits
      before the limit-th live entry. */
  lemma {:induction false} ScanFailsIff(e: Entries, ks: seq<string>, limit: nat)
    requires forall k :: k in ks ==> k in e
    ensures Scan(e, ks, limit).None? <==>
            exists i :: 0 <= i < |ks| && e[ks[i]].Garbled? && |LiveKeys(e, ks[..i])| < limit
  {
    if ks != [] && limit > 0 {
      var rest := ks[1..];
      var spent := if e[ks[0]].Live? then 1 else 0;
      ScanFailsIff(e, rest, limit - spent);
      forall i | 0 <= i < |rest|
        ensures |LiveKeys(e, ks[..i + 1])| == spent + |LiveKeys(e, rest[..i])|
      {
        assert ks[..i + 1][1..] == rest[..i];
      }
      if e[ks[0]].Garbled? {
        assert |LiveKeys(e, ks[..0])| == 0;
      } else if Scan(e, ks, limit).None? {
        var i :| 0 <= i < |rest| && e[rest[i]].Garbled? && |LiveKeys(e, rest[..i])| < limit - spent;
        assert e[ks[i + 1]].Garbled? && |LiveKeys(e, ks[..i + 1])| < limit;
      }
      if i :| 0 <= i < |ks| && e[ks[i]].Garbled? && |LiveKeys(e, ks[..i])| < limit {
        if i > 0 { assert e[rest[i - 1]].Garbled? && |LiveKeys(e, ks[..(i - 1) + 1])| < limit; }
      }
    }
  }

  /** Some value that does not decode sits before the limit-th live entry. */
  ghost predicate Blocked(e: Entries, limit: nat) {
    ListingStored(e);
    var all := Listing(e.Keys);
    exists i :: 0 <= i < |all| && e[all[i]].Garbled? && |LiveKeys(e, all[..i])| < limit
  }

  /** A value that does not decode under the least key blocks every drain. */
  lemma GarbledHeadBlocks(e: Entries, k: string, limit: nat)
    requires IsLeast(k, e.Keys) && e[k].Garbled? && limit > 0
    ensures Blocked(e, limit)
  {
    LeastUnique(k, Least(e.Keys), e.Keys);
    ListingStored(e);
    var all := Listing(e.Keys);
    assert all[0] == k && |LiveKeys(e, all[..0])| == 0;
  }

  /** And it keeps blocking whatever is appended behind it. */
  lemma GarbledHeadStays(e: Entries, k: string, key: string, m: Message, limit: nat)
    requires IsLeast(k, e.Keys) && e[k].Garbled? && limit > 0 && Less(k, key)
    ensures IsLeast(k, e[key := Live(m)].Keys) && Blocked(e[key := Live(m)], limit)
  {
    LessIrreflexive(k);
    GarbledHeadBlocks(e[key := Live(m)], k, limit);
  }

  lemma ListingStored(e: Entries)
    ensures forall k :: k in Listing(e.Keys) ==> k in e
  {
    assert forall k :: k in Listing(e.Keys) <==> k in Elements(Listing(e.Keys));
  }

  // ----- what appends and drains leave of the entries that are not live -----

  /** `log` on top of what is not live in `e`. */
  ghost function Overlay(e: Entries, log: Log): Entries {
    map k | k in e.Keys + log.Keys && (k in log || !e[k].Live?) :: if k in log then Live(log[k]) else e[k]
  }

  /** The store was `e` and is `now`, with `log` live; quantified so that methods can pass it on. */
  ghost predicate OverlayIs(e: Entries, now: Entries, log: Log) {
    forall l :: l == log ==> now == Overlay(e, l)
  }

  lemma OverlaySelf(e: Entries)
    ensures OverlayIs(e, e, LiveLog(e))
  {
    assert e == Overlay(e, LiveLog(e));
  }

  lemma OverlayTwice(e: Entries, mid: Entries, midLog: Log, now: Entries, log: Log)
    requires OverlayIs(e, mid, midLog) && OverlayIs(mid, now, log) && midLog.Keys <= LiveLog(e).Keys
    ensures OverlayIs(e, now, log)
  {
    assert mid == Overlay(e, midLog) && now == Overlay(mid, log);
    assert now == Overlay(e, log);
  }

  lemma OverlayDrain(e: Entries, ks: set<string>)
    requires ks <= LiveLog(e).Keys
    ensures OverlayIs(e, e - ks, LiveLog(e) - ks)
  {
    assert e - ks == Overlay(e, LiveLog(e) - ks);
  }

  lemma OverlayAppend(e: Entries, now: Entries, log: Log, key: string, m: Message)
    requires OverlayIs(e, now, log)
    ensures OverlayIs(e, now[key := Live(m)], log[key := m])
  {
    assert now == Overlay(e, log);
    assert now[key := Live(m)] == Overlay(e, log[key := m]);
  }

  // ----- the reading loop, one position at a time -----

  ghost function Prepend(ks: seq<string>, r: Option<seq<string>>): Option<seq<string>> {
    match r
    case None => None
    case Some(rest) => Some(ks + rest)
  }

  /** `keys` and `out` are what the scan has taken before position `i`. */
  ghost predicate ReadTo(e: Entries, all: seq<string>, limit: nat, i: int, keys: seq<string>, out: seq<Message>) {
    && 0 <= i <= |all| && |keys| == |out| <= limit
    && (forall k :: k in all ==> k in e)
    && (forall k :: k in keys ==> k in LiveLog(e))
    && out == MessagesAt(LiveLog(e), keys)
    && Scan(e, all, limit) == Prepend(keys, Scan(e, all[i..], limit - |keys|))
  }

  lemma ReadStart(e: Entries, all: seq<string>, limit: nat)
    requires forall k :: k in all ==> k in e
    ensures ReadTo(e, all, limit, 0, [], [])
  {
    assert all[0..] == all;
    var r := Scan(e, all, limit);
    if r.Some? { assert [] + r.value == r.value; }
  }

  lemma ReadGarbled(e: Entries, all: seq<string>, limit: nat, i: int, keys: seq<string>, out: seq<Message>)
    requires ReadTo(e, all, limit, i, keys, out) && i < |all| && |out| < limit && e[all[i]].Garbled?
    ensures Scan(e, all, limit).None?
  {
    assert all[i..][0] == all[i];
  }

  lemma ReadExpired(e: Entries, all: seq<string>, limit: nat, i: int, keys: seq<string>, out: seq<Message>)
    requires ReadTo(e, all, limit, i, keys, out) && i < |all| && |out| < limit && e[all[i]].Expired?
    ensures ReadTo(e, all, limit, i + 1, keys, out)
  {
    assert all[i..][0] == all[i] && all[i..][1..] == all[i + 1..];
  }

  lemma ReadLive(e: Entries, all: seq<string>, limit: nat, i: int, keys: seq<string>, out: seq<Message>)
    requires ReadTo(e, all, limit, i, keys, out) && i < |all| && |out| < limit && e[all[i]].Live?
    ensures ReadTo(e, all, limit, i + 1, keys + [all[i]], out + [e[all[i]].msg])
  {
    var k := all[i];
    var rest := Scan(e, all[i + 1..], limit - |keys| - 1);
    assert all[i..][0] == k && all[i..][1..] == all[i + 1..];
    assert Scan(e, all[i..], limit - |keys|) == Prepend([k], rest);
    PrependSnoc(keys, k, rest);
    ExtendRead(LiveLog(e), keys, k);
  }

  lemma ReadEnd(e: Entries, all: seq<string>, limit: nat, i: int, keys: seq<string>, out: seq<Message>)
    requires ReadTo(e, all, limit, i, keys, out) && (i == |all| || |out| == limit)
    ensures Scan(e, all, limit) == Some(keys)
  {
    assert keys + [] == keys;
  }

  lemma ExtendRead(log: Log, keys: seq<string>, k: string)
    requires (forall j :: j in keys ==> j in log) && k in log
    ensures forall j :: j in keys + [k] ==> j in log
    ensures MessagesAt(log, keys + [k]) == MessagesAt(log, keys) + [log[k]]
  {
    MessagesAtConcat(log, keys, [k]);
    assert MessagesAt(log, [k]) == [log[k]] + MessagesAt(log, []);
  }

  lemma PrependSnoc(keys: seq<string>, k: string, r: Option<seq<string>>)
    ensures Prepend(keys + [k], r) == Prepend(keys, Prepend([k], r))
  {
    if r.Some? { assert (keys + [k]) + r.value == keys + ([k] + r.value); }
  }

  /** Which outcome the read transaction has, and what it takes when it succeeds. */
  lemma ScanOutcome(e: Entries, limit: nat)
    ensures forall k :: k in Listing(e.Keys) ==> k in e
    ensures var r := Scan(e, Listing(e.Keys), limit);
            && (r.None? <==> Blocked(e, limit))
            && (r.Some? ==> r.value == OldestKeys(LiveLog(e), limit))
  {
    ScanIsOldest(e, limit);
    ScanFailsIff(e, Listing(e.Keys), limit);
  }

  lemma NotEarlier(all: seq<string>, i: nat)
    requires Ascending(all) && i < |all|
    ensures all[i] !in Elements(all[..i])
  {
    if all[i] in all[..i] { LessIrreflexive(all[i]); }
  }

  lemma CountNext(visible: set<string>, all: seq<string>, i: nat)
    requires Ascending(all) && i < |all|
    ensures |visible * Elements(all[..i + 1])| ==
            |visible * Elements(all[..i])| + (if all[i] in visible then 1 else 0)
  {
    NotEarlier(all, i);
    SnocElements(all[..i], all[i]);
    assert all[..i + 1] == all[..i] + [all[i]];
    var before := visible * Elements(all[..i]);
    if all[i] in visible {
      assert visible * Elements(all[..i + 1]) == before + {all[i]};
    } else {
      assert visible * Elements(all[..i + 1]) == before;
    }
  }

  class Store {
    var entries: Entries
    var seq_: uint64
    var appended: nat
    var drained: nat

    constructor (stored: Entries)
      ensures entries == stored && seq_ == 0 && appended == drained == 0
    {
      entries, seq_, appended, drained := stored, 0, 0, 0;
    }

    ghost function Contents(): Log
      reads this
    {
      LiveLog(entries)
    }

    /** The sequence number is spent even when the write then fails. */
    method Append(msg: Message, now: int64, fault: AppendFault) returns (r: Result<string, WalError>)
      modifies this
      ensures seq_ == NextSeq(old(seq_)) == (old(seq_) + 1) % 0x1_0000_0000_0000_0000 && drained == old(drained)
      ensures r.Ok? <==> fault == NoFault
      ensures r.Ok? ==> r.value == KeyAt(now, seq_) && appended == old(appended) + 1
                        && entries == old(entries)[KeyAt(now, seq_) := Live(msg)]
                        && Contents() == old(Contents())[KeyAt(now, seq_) := msg]
      ensures r.Err? ==> entries == old(entries) && appended == old(appended)
    {
      seq_ := NextSeq(seq_);
      var key := MakeKey(now, seq_);
      if fault == EncodeFails { return Err(EncodeError); }
      if fault == WriteFails { return Err(SetError); }
      entries := entries[key := Live(msg)];
      appended := appended + 1;
      r := Ok(key);
    }

    /** The store's iterator: all keys, ascending. */
    method Iterate() returns (ks: seq<string>)
      ensures ks == Listing(entries.Keys)
    {
      ks := [];
      var rest := entries.Keys;
      while rest != {}
        invariant ks + Listing(rest) == Listing(entries.Keys)
        decreases |rest|
      {
        assert IsLeast(Least(rest), rest);
        var k :| k in rest && IsLeast(k, rest);
        ListingNext(ks, rest, k);
        ks := ks + [k];
        rest := rest - {k};
      }
    }

    /** Phase one: the read transaction. */
    method ReadOldest(limit: nat) returns (r: Result<(seq<string>, seq<Message>), WalError>)
      ensures r == if Blocked(entries, limit) then Err(ReadError)
                   else Ok((OldestKeys(Contents(), limit), MessagesAt(Contents(), OldestKeys(Contents(), limit))))
    {
      ScanOutcome(entries, limit);
      var all := Iterate();
      var keys: seq<string>, out: seq<Message> := [], [];
      var i := 0;
      ReadStart(entries, all, limit);
      while i < |all| && |out| < limit
        invariant ReadTo(entries, all, limit, i, keys, out)
      {
        match entries[all[i]] {
          case Expired =>
            ReadExpired(entries, all, limit, i, keys, out);
          case Garbled =>
            ReadGarbled(entries, all, limit, i, keys, out);
            return Err(ReadError);
          case Live(msg) =>
            ReadLive(entries, all, limit, i, keys, out);
            out := out + [msg];
            keys := keys + [all[i]];
        }
        i := i + 1;
      }
      ReadEnd(entries, all, limit, i, keys, out);
      r := Ok((keys, out));
    }

    /** Phase two: one write transaction that deletes every key read, or nothing. */
    method DeleteKeys(keys: seq<string>, fails: bool) returns (ok: bool)
      modifies this`entries
      ensures ok == !fails
      ensures entries == if ok then old(entries) - Elements(keys) else old(entries)
      ensures Contents() == if ok then old(Contents()) - Elements(keys) else old(Contents())
    {
      var txn := entries;
      for i := 0 to |keys|
        invariant entries == old(entries)
        invariant txn == old(entries) - Elements(keys[..i])
      {
        SnocElements(keys[..i], keys[i]);
        assert keys[..i + 1] == keys[..i] + [keys[i]];
        txn := txn - {keys[i]};
      }
      assert keys[..|keys|] == keys;
      if fails { return false; }
      entries := txn;
      ok := true;
    }

    /** A drain hands out the oldest live messages and removes exactly their entries,
        or fails and leaves the store as it was. */
    method Drain(limit: int, deleteFails: bool) returns (r: Result<seq<Message>, WalError>)
      modifies this
      ensures seq_ == old(seq_) && appended == old(appended)
      ensures r.Err? <==> limit > 0 && (Blocked(old(entries), limit) || (deleteFails && |old(Contents())| > 0))
      ensures r.Err? ==> entries == old(entries) && drained == old(drained)
      ensures r.Ok? ==>
                var ks := OldestKeys(old(Contents()), if limit <= 0 then 0 else limit);
                && r.value == MessagesAt(old(Contents()), ks)
                && entries == old(entries) - Elements(ks)
                && Contents() == old(Contents()) - Elements(ks)
                && drained == old(drained) + |r.value|
    {
      if limit <= 0 {
        NothingTaken(entries);
        return Ok([]);
      }
      r := DrainSome(limit, deleteFails);
    }

    method DrainSome(limit: nat, deleteFails: bool) returns (r: Result<seq<Message>, WalError>)
      modifies this
      ensures seq_ == old(seq_) && appended == old(appended)
      ensures r.Err? <==> Blocked(old(entries), limit) || (deleteFails && Min(limit, |old(Contents())|) > 0)
      ensures r.Err? ==> entries == old(entries) && drained == old(drained)
      ensures r.Ok? ==>
                var ks := OldestKeys(old(Contents()), limit);
                && r.value == MessagesAt(old(Contents()), ks)
                && entries == old(entries) - Elements(ks)
                && Contents() == old(Contents()) - Elements(ks)
                && drained == old(drained) + |r.value|
    {
      var read := ReadOldest(limit);
      if read.Err? { return Err(read.error); }
      var (keys, out) := read.value;
      if |keys| == 0 {
        NothingDeleted(entries);
        return Ok([]);
      }
      r := HandOut(keys, out, deleteFails);
    }

    /** What follows a read that found something. */
    method HandOut(keys: seq<string>, out: seq<Message>, deleteFails: bool) returns (r: Result<seq<Message>, WalError>)
      modifies this`entries, this`drained
      ensures r == if deleteFails then Err(DeleteError) else Ok(out)
      ensures entries == if deleteFails then old(entries) else old(entries) - Elements(keys)
      ensures Contents() == if deleteFails then old(Contents()) else old(Contents()) - Elements(keys)
      ensures drained == if deleteFails then old(drained) else old(drained) + |out|
    {
      var ok := DeleteKeys(keys, deleteFails);
      if !ok { return Err(DeleteError); }
      drained := drained + |out|;
      r := Ok(out);
    }

    method Len() returns (n: nat)
      ensures n == |set k | k in entries && !entries[k].Expired?|
    {
      var all := Iterate();
      ListingStored(entries);
      assert Visible(entries) * Elements(all) == Visible(entries);
      n := CountVisible(entries, all);
      assert Visible(entries) == set k | k in entries && !entries[k].Expired?;
    }
  }

  /** The keys that a key-only walk counts: everything not expired. */
  ghost function Visible(e: Entries): set<string> {
    set k | k in e && !e[k].Expired?
  }

  method CountVisible(e: Entries, all: seq<string>) returns (n: nat)
    requires Ascending(all) && forall k :: k in all ==> k in e
    ensures n == |Visible(e) * Elements(all)|
  {
    ghost var visible := Visible(e);
    n := 0;
    assert visible * Elements(all[..0]) == {};
    for i := 0 to |all|
      invariant n == |visible * Elements(all[..i])|
    {
      CountNext(visible, all, i);
      if !e[all[i]].Expired? { n := n + 1; }
    }
    assert all[..|all|] == all;
  }

  lemma ListingNext(acc: seq<string>, rest: set<string>, k: string)
    requires IsLeast(k, rest)
    ensures (acc + [k]) + Listing(rest - {k}) == acc + Listing(rest)
  {
    LeastUnique(k, Least(rest), rest);
    assert Listing(rest) == [k] + Listing(rest - {k});
  }

  lemma NothingDeleted(e: Entries)
    ensures e - Elements([]) == e && LiveLog(e) - Elements([]) == LiveLog(e)
  {}

  lemma NothingTaken(e: Entries)
    ensures e - Elements([]) == e && LiveLog(e) - Elements([]) == LiveLog(e)
    ensures MessagesAt(LiveLog(e), OldestKeys(LiveLog(e), 0)) == []
  {}
}
