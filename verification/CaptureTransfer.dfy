/** Captured images handed over in chunks: two slots, in-order reads, and a receiver that puts the chunks together. */
module CaptureTransfer {
  import opened Common

  const CHUNK_BYTES := 1_048_576
  const MAX_TRANSFER_BYTES := 67_108_864
  const MAX_TRANSFERS := 2
  const TRANSFER_TTL_SECONDS := 60.0

  datatype Id = Id(text: string)

  datatype Encoding = Png | Rgba8

  datatype Metadata = Metadata(encoding: Encoding, width: nat, height: nat, nativeWidth: nat, nativeHeight: nat)

  /** `token` is the identity of the transfer object. */
  datatype Transfer = Transfer(token: nat, data: Option<string>, offset: nat, expiresAt: real)

  predicate ValidId(id: Id) {
    0 < |id.text| <= 64
  }

  predicate ValidInfo(info: Metadata) {
    && 1 <= info.width <= 65536 && 1 <= info.height <= 65536
    && 1 <= info.nativeWidth <= 65536 && 1 <= info.nativeHeight <= 65536
  }

  /** Base64 of the raw pixels has exactly this length. */
  function RawLength(info: Metadata): nat {
    (info.width * info.height * 4 + 2) / 3 * 4
  }

  predicate ValidSize(size: int, info: Metadata) {
    4 <= size <= MAX_TRANSFER_BYTES && size % 4 == 0 && (info.encoding.Rgba8? ==> size == RawLength(info))
  }

  /** What the capture came back with. */
  datatype Captured = Threw | NotAvailable | Refused | Malformed | Image(info: Metadata, data: string)

  datatype Begun =
    | Unavailable | InvalidId | Duplicate | SlotsTaken | CaptureFailed | Expired | BadCapture | BadData
    | Ready(totalBytes: nat, info: Metadata)

  datatype Reply = ReadRefused | Chunk(offset: nat, data: string)

  /** The bytes of a transfer and what reading has handed out of them. */
  datatype Delivery = Delivery(data: string, sent: string)

  // ---------- Sizes ----------

  function DataSize(t: Transfer): nat {
    if t.data.Some? then |t.data.value| else 0
  }

  ghost function Held(ids: set<Id>, transfers: map<Id, Transfer>): nat
    requires ids <= transfers.Keys
    decreases ids
  {
    if ids == {} then 0 else
    var id :| id in ids;
    DataSize(transfers[id]) + Held(ids - {id}, transfers)
  }

  lemma {:induction false} HeldBound(ids: set<Id>, transfers: map<Id, Transfer>, each: nat)
    requires ids <= transfers.Keys && forall id :: id in ids ==> DataSize(transfers[id]) <= each
    ensures Held(ids, transfers) <= |ids| * each
    decreases ids
  {
    if ids != {} {
      hide DataSize;
      var id :| id in ids && Held(ids, transfers) == DataSize(transfers[id]) + Held(ids - {id}, transfers);
      HeldBound(ids - {id}, transfers, each);
      OneMore(|ids - {id}|, each);
      assert ids == (ids - {id}) + {id};
    }
  }

  lemma OneMore(n: nat, each: nat)
    ensures (n + 1) * each == n * each + each
  {}

  function Live(transfers: map<Id, Transfer>, now: real): map<Id, Transfer> {
    map id | id in transfers && now < transfers[id].expiresAt :: transfers[id]
  }

  /** Why begin refuses, the first reason there is. */
  function Refusal(id: Option<Id>, live: map<Id, Transfer>): Option<Begun> {
    if id.None? then Some(Unavailable)
    else if id.value.text == [] || |id.value.text| > 64 then Some(InvalidId)
    else if id.value in live then Some(Duplicate)
    else if |live| >= 2 then Some(SlotsTaken)
    else None
  }

  lemma FewerKeys(a: map<Id, Transfer>, b: map<Id, Transfer>)
    requires a.Keys <= b.Keys
    ensures |a| <= |b|
  {
    assert |b.Keys| == |a.Keys| + |b.Keys - a.Keys| by { assert b.Keys == a.Keys + (b.Keys - a.Keys); }
  }

  /** The time a transfer may take: what was asked for, but at least a second and at most a minute. */
  function Clamp(ttl: real): (t: real)
    ensures 1.0 <= t <= 60.0
    ensures 1.0 <= ttl <= 60.0 ==> t == ttl
    ensures ttl < 1.0 ==> t == 1.0
    ensures ttl > 60.0 ==> t == 60.0
  {
    if ttl < 1.0 then 1.0 else if ttl > TRANSFER_TTL_SECONDS then TRANSFER_TTL_SECONDS else ttl
  }

  // ---------- The invariant ----------

  /** A slot's transfer, read so far in order, or waiting for its capture. */
  predicate SlotOk(t: Transfer, next: nat, log: map<nat, Delivery>) {
    && t.token < next
    && (t.data.None? ==> t.offset == 0 && t.token !in log)
    && (t.data.Some? ==>
          && 4 <= |t.data.value| <= MAX_TRANSFER_BYTES && t.offset < |t.data.value|
          && t.token in log && log[t.token] == Delivery(t.data.value, t.data.value[..t.offset]))
  }

  ghost predicate Sound(m: map<Id, Transfer>, next: nat, log: map<nat, Delivery>) {
    && |m| <= MAX_TRANSFERS
    && (forall id :: id in m ==> ValidId(id) && SlotOk(m[id], next, log))
    && (forall a, b :: a in m && b in m && a != b ==> m[a].token != m[b].token)
    && (forall k :: k in log ==> k < next && log[k].sent <= log[k].data)
  }

  lemma SoundFewer(m: map<Id, Transfer>, m': map<Id, Transfer>, next: nat, log: map<nat, Delivery>)
    requires Sound(m, next, log) && m'.Keys <= m.Keys && forall id :: id in m' ==> m'[id] == m[id]
    ensures Sound(m', next, log)
  {
    FewerKeys(m', m);
    hide SlotOk, ValidId;
  }

  lemma SoundAdded(m: map<Id, Transfer>, id: Id, t: Transfer, next: nat, log: map<nat, Delivery>)
    requires Sound(m, next, log) && id !in m && |m| < MAX_TRANSFERS && ValidId(id) && SlotOk(t, next, log)
    requires forall x :: x in m ==> m[x].token != t.token
    ensures Sound(m[id := t], next, log)
  {
    NewKey(m, id, t);
    hide SlotOk, ValidId;
  }

  /** A delivery noted for a token no slot has. */
  lemma SoundLogged(m: map<Id, Transfer>, next: nat, log: map<nat, Delivery>, k: nat, d: Delivery)
    requires Sound(m, next, log) && k < next && d.sent <= d.data && forall x :: x in m ==> m[x].token != k
    ensures Sound(m, next, log[k := d])
  {
    forall x | x in m ensures SlotOk(m[x], next, log[k := d]) {
      assert SlotOk(m[x], next, log);
    }
    hide ValidId, SlotOk;
  }

  lemma SoundLater(m: map<Id, Transfer>, next: nat, log: map<nat, Delivery>)
    requires Sound(m, next, log)
    ensures Sound(m, next + 1, log) && next !in log && |m| <= MAX_TRANSFERS && forall x :: x in m ==> m[x].token != next
  {
    forall x | x in m ensures SlotOk(m[x], next + 1, log) && m[x].token != next {
      assert SlotOk(m[x], next, log);
    }
    hide ValidId, SlotOk;
  }

  lemma SoundReserved(m: map<Id, Transfer>, id: Id, next: nat, log: map<nat, Delivery>, expiresAt: real)
    requires Sound(m, next, log) && ValidId(id) && id !in m && |m| < MAX_TRANSFERS
    ensures Sound(m[id := Transfer(next, None, 0, expiresAt)], next + 1, log)
  {
    hide Sound, ValidId;
    SoundLater(m, next, log);
    SoundAdded(m, id, Transfer(next, None, 0, expiresAt), next + 1, log);
  }

  /** A slot's transfer replaced, and its delivery noted. */
  lemma SoundReplaced(m: map<Id, Transfer>, id: Id, t: Transfer, next: nat, log: map<nat, Delivery>, d: Delivery)
    requires Sound(m, next, log) && id in m && t.token == m[id].token && d.sent <= d.data
        && SlotOk(t, next, log[t.token := d])
    ensures Sound(m[id := t], next, log[t.token := d]) && Sound(m - {id}, next, log[t.token := d])
  {
    assert ValidId(id) && |m| <= MAX_TRANSFERS && t.token < next;
    assert forall x :: x in m - {id} ==> m[x].token != t.token;
    RemovedKey(m, id);
    hide Sound, SlotOk, ValidId;
    SoundFewer(m, m - {id}, next, log);
    SoundLogged(m - {id}, next, log, t.token, d);
    SoundAdded(m - {id}, id, t, next, log[t.token := d]);
    assert (m - {id})[id := t] == m[id := t];
  }

  lemma RemovedKey(m: map<Id, Transfer>, id: Id)
    requires id in m
    ensures |m - {id}| == |m| - 1
  {
    NewKey(m - {id}, id, m[id]);
    assert (m - {id})[id := m[id]] == m;
  }

  lemma SoundCompleted(m: map<Id, Transfer>, id: Id, next: nat, log: map<nat, Delivery>, data: string)
    requires Sound(m, next, log) && id in m && m[id].token !in log && m[id].data.None?
        && 4 <= |data| <= MAX_TRANSFER_BYTES
    ensures Sound(m[id := m[id].(data := Some(data))], next, log[m[id].token := Delivery(data, [])])
  {
    SlotData(m, id, next, log);
    assert data[..0] == [];
    hide Sound;
    SoundReplaced(m, id, m[id].(data := Some(data)), next, log, Delivery(data, []));
  }

  /** The slots after a read of so many bytes. */
  function AfterRead(m: map<Id, Transfer>, id: Id, length: nat): map<Id, Transfer>
    requires id in m && m[id].data.Some?
  {
    if m[id].offset + length == |m[id].data.value| then m - {id} else m[id := m[id].(offset := m[id].offset + length)]
  }

  lemma SentSoFar(m: map<Id, Transfer>, id: Id, next: nat, log: map<nat, Delivery>)
    requires Sound(m, next, log) && id in m && m[id].data.Some?
    ensures var t := m[id];
            && t.token < next && t.token in log && t.offset < |t.data.value|
                && 4 <= |t.data.value| <= MAX_TRANSFER_BYTES
            && log[t.token] == Delivery(t.data.value, t.data.value[..t.offset])
  {
    assert SlotOk(m[id], next, log);
  }

  lemma LongerPrefix(data: string, offset: nat, length: nat)
    requires offset + length <= |data|
    ensures data[..offset] + data[offset..offset + length] == data[..offset + length] && data[..offset + length] <= data
  {}

  lemma SlotAfter(t: Transfer, next: nat, log: map<nat, Delivery>, offset: nat)
    requires t.token < next && t.data.Some? && offset < |t.data.value| && 4 <= |t.data.value| <= MAX_TRANSFER_BYTES
    ensures SlotOk(t.(offset := offset), next, log[t.token := Delivery(t.data.value, t.data.value[..offset])])
  {}

  lemma {:induction false} SoundRead(m: map<Id, Transfer>, id: Id, length: nat, next: nat, log: map<nat, Delivery>)
    requires Sound(m, next, log) && id in m && m[id].data.Some? && 1 <= length <= |m[id].data.value| - m[id].offset
    ensures var t := m[id];
            var chunk := t.data.value[t.offset..t.offset + length];
            && t.token in log && log[t.token].sent + chunk == t.data.value[..t.offset + length]
            && Sound(AfterRead(m, id, length), next, log[t.token := Delivery(t.data.value, log[t.token].sent + chunk)])
  {
    hide Sound, SlotOk;
    var t := m[id];
    SentSoFar(m, id, next, log);
    LongerPrefix(t.data.value, t.offset, length);
    var d := Delivery(t.data.value, t.data.value[..t.offset + length]);
    if t.offset + length < |t.data.value| {
      SlotAfter(t, next, log, t.offset + length);
      SoundReplaced(m, id, t.(offset := t.offset + length), next, log, d);
    } else {
      LastRead(m, id, next, log, d);
    }
  }

  lemma LastRead(m: map<Id, Transfer>, id: Id, next: nat, log: map<nat, Delivery>, d: Delivery)
    requires Sound(m, next, log) && id in m && d.sent <= d.data && m[id].token < next
    ensures Sound(m - {id}, next, log[m[id].token := d])
  {
    assert forall x :: x in m - {id} ==> m[x].token != m[id].token;
    hide Sound;
    SoundFewer(m, m - {id}, next, log);
    SoundLogged(m - {id}, next, log, m[id].token, d);
  }

  lemma SlotData(m: map<Id, Transfer>, id: Id, next: nat, log: map<nat, Delivery>)
    requires Sound(m, next, log) && id in m
    ensures m[id].token < next && (m[id].data.None? ==> m[id].offset == 0 && m[id].token !in log)
    ensures m[id].data.Some? ==> m[id].offset < |m[id].data.value| <= MAX_TRANSFER_BYTES && m[id].token in log
  {
    assert SlotOk(m[id], next, log);
  }

  class Transfers {
    var transfers: map<Id, Transfer>
    var nextToken: nat
    /** Every capture accepted, by token, and what has been read of it. */
    ghost var log: map<nat, Delivery>

    ghost predicate Valid()
      reads this
    {
      Sound(transfers, nextToken, log)
    }

    /** At most two captures of 64 MiB are held. */
    lemma {:induction false} HeldWithinBounds()
      requires Valid()
      ensures Held(transfers.Keys, transfers) <= 134_217_728
    {
      forall id | id in transfers ensures DataSize(transfers[id]) <= MAX_TRANSFER_BYTES {
        SlotData(transfers, id, nextToken, log);
      }
      hide DataSize;
      HeldBound(transfers.Keys, transfers, MAX_TRANSFER_BYTES);
      assert |transfers.Keys| == |transfers|;
    }

    constructor ()
      ensures Valid() && transfers == map[] && log == map[]
    {
      transfers, nextToken, log := map[], 0, map[];
    }

    method Discard(id: Id)
      requires Valid()
      modifies this`transfers
      ensures Valid() && transfers == old(transfers) - {id}
    {
      hide Sound;
      SoundFewer(transfers, transfers - {id}, nextToken, log);
      transfers := transfers - {id};
    }

    method Prune(now: real)
      requires Valid()
      modifies this`transfers
      ensures Valid() && transfers == Live(old(transfers), now)
    {
      hide Sound;
      var todo := transfers.Keys;
      while todo != {}
        invariant todo <= old(transfers).Keys && Valid()
        invariant forall id :: id in transfers <==>
            id in old(transfers) && (id in todo || now < old(transfers)[id].expiresAt)
        invariant forall id :: id in transfers ==> transfers[id] == old(transfers)[id]
        decreases |todo|
      {
        var id :| id in todo;
        todo := todo - {id};
        if now >= transfers[id].expiresAt {
          Discard(id);
        }
      }
      assert transfers == Live(old(transfers), now);
    }

    /** Idempotent; true for a well-formed identity. */
    method Release(id: Id) returns (ok: bool)
      requires Valid()
      modifies this`transfers
      ensures Valid() && ok == ValidId(id) && transfers == if ok then old(transfers) - {id} else old(transfers)
    {
      ok := |id.text| > 0 && |id.text| <= 64;
      if ok {
        Discard(id);
      }
    }

    /** The delayed task of begin. It knows only the identity, so a later transfer under it stays until its own time. */
    method Expire(id: Id, now: real)
      requires Valid()
      modifies this`transfers
      ensures Valid()
      ensures transfers == if id in old(transfers) && now >= old(transfers)[id].expiresAt then old(transfers) - {id}
          else old(transfers)
    {
      hide Sound;
      if id in transfers {
        if now >= transfers[id].expiresAt {
          Discard(id);
        }
      }
    }

    /** The first part of begin: a slot is reserved before the capture yields. */
    method Reserve(id: Option<Id>, ttlSeconds: real, now: real) returns (refusal: Option<Begun>, token: nat)
      requires Valid()
      modifies this`transfers, this`nextToken
      ensures Valid()
      ensures refusal == Refusal(id, Live(old(transfers), now))
      ensures refusal.None? <==>
                && id.Some? && ValidId(id.value) && id.value !in Live(old(transfers), now)
                && |Live(old(transfers), now)| < 2
      ensures refusal.Some? ==> transfers == Live(old(transfers), now) && nextToken == old(nextToken)
      ensures refusal.None? ==> token == old(nextToken) && nextToken == token + 1
      ensures refusal.None? ==>
                transfers == Live(old(transfers), now)[id.value := Transfer(token, None, 0, now + Clamp(ttlSeconds))]
    {
      hide Sound, Live, Clamp;
      token := nextToken;
      Prune(now);
      if id.None? {
        return Some(Unavailable), token;
      }
      if |id.value.text| == 0 || |id.value.text| > 64 {
        return Some(InvalidId), token;
      }
      if id.value in transfers {
        return Some(Duplicate), token;
      }
      if |transfers| >= MAX_TRANSFERS {
        return Some(SlotsTaken), token;
      }
      SoundLater(transfers, nextToken, log);
      SoundReserved(transfers, id.value, nextToken, log, now + Clamp(ttlSeconds));
      transfers := transfers[id.value := Transfer(token, None, 0, now + Clamp(ttlSeconds))];
      nextToken := nextToken + 1;
      refusal := None;
    }

    /** The rest of begin, once the capture has come back: other operations may have run in between. */
    method Complete(id: Id, token: nat, captured: Captured, now: real) returns (b: Begun)
      requires Valid() && token < nextToken && token !in log
      modifies this`transfers, this`log
      ensures Valid()
      ensures b.Ready? <==>
                && id in old(transfers) && old(transfers)[id].token == token && now < old(transfers)[id].expiresAt
                && captured.Image? && ValidInfo(captured.info) && ValidSize(|captured.data|, captured.info)
      ensures b.CaptureFailed? <==> captured.Threw?
      ensures b.Expired? <==>
                && !captured.Threw?
                && !(id in old(transfers) && old(transfers)[id].token == token && now < old(transfers)[id].expiresAt)
      ensures b.Unavailable? ==> captured.NotAvailable?
      ensures b.BadData? ==> captured.Image? && ValidInfo(captured.info)
      ensures b.BadCapture? ==> !captured.NotAvailable? && (captured.Image? ==> !ValidInfo(captured.info))
      ensures b.CaptureFailed? || b.Expired? || b.Unavailable? || b.BadCapture? || b.BadData? || b.Ready?
      ensures b.Ready? ==> b.totalBytes == |captured.data| && b.info == captured.info
                           && transfers == old(transfers)[id := old(transfers)[id].(data := Some(captured.data))]
                           && log == old(log)[token := Delivery(captured.data, [])]
      ensures !b.Ready? ==> log == old(log)
                            && transfers == if id in old(transfers) && old(transfers)[id].token == token
                                then old(transfers) - {id} else old(transfers)
    {
      hide Sound, ValidInfo, ValidSize;
      var mine := id in transfers && transfers[id].token == token;
      if captured.Threw? {
        if mine {
          Discard(id);
        }
        return CaptureFailed;
      }
      if !mine || now >= transfers[id].expiresAt {
        if mine {
          Discard(id);
        }
        return Expired;
      }
      if !captured.Image? || !ValidInfo(captured.info) {
        Discard(id);
        return if captured.NotAvailable? then Unavailable else BadCapture;
      }
      if !ValidSize(|captured.data|, captured.info) {
        Discard(id);
        return BadData;
      }
      SizedData(|captured.data|, captured.info);
      SlotData(transfers, id, nextToken, log);
      SoundCompleted(transfers, id, nextToken, log, captured.data);
      log := log[token := Delivery(captured.data, [])];
      transfers := transfers[id := transfers[id].(data := Some(captured.data))];
      b := Ready(|captured.data|, captured.info);
    }

    /** Hands out the next bytes; the last ones free the slot. */
    method TakeChunk(id: Id, length: nat) returns (chunk: string)
      requires Valid() && id in transfers && transfers[id].data.Some?
          && 1 <= length <= |transfers[id].data.value| - transfers[id].offset
      modifies this`transfers, this`log
      ensures Valid()
      ensures var t := old(transfers)[id];
              && chunk == t.data.value[t.offset..t.offset + length]
              && t.token in old(log)
                 && log == old(log)[t.token := Delivery(t.data.value, old(log)[t.token].sent + chunk)]
              && log[t.token].sent == t.data.value[..t.offset + length]
              && transfers == AfterRead(old(transfers), id, length)
    {
      hide Sound;
      var t := transfers[id];
      SoundRead(transfers, id, length, nextToken, log);
      chunk := t.data.value[t.offset..t.offset + length];
      log := log[t.token := Delivery(t.data.value, log[t.token].sent + chunk)];
      if t.offset + length == |t.data.value| {
        transfers := transfers - {id};
      } else {
        transfers := transfers[id := t.(offset := t.offset + length)];
      }
    }

    /** A read hands out the next bytes, or, if it is not the next chunk exactly, ends the transfer. */
    method Read(id: Id, offset: int, length: int, now: real) returns (r: Reply)
      requires Valid()
      modifies this`transfers, this`log
      ensures Valid()
      ensures r.Chunk? <==>
                && ValidId(id) && id in Live(old(transfers), now) && old(transfers)[id].data.Some?
                && offset == old(transfers)[id].offset && 1 <= length
                && length == Min(1_048_576, |old(transfers)[id].data.value| - offset)
      ensures r.Chunk? ==>
                var t := old(transfers)[id];
                && 0 <= offset && offset + length <= |t.data.value| && r.offset == offset
                    && r.data == t.data.value[offset..offset + length]
                && t.token in old(log)
                 && log == old(log)[t.token := Delivery(t.data.value, old(log)[t.token].sent + r.data)]
                && log[t.token].sent == t.data.value[..offset + length] && id in Live(old(transfers), now)
                && transfers == AfterRead(Live(old(transfers), now), id, length)
      ensures r.ReadRefused? ==> log == old(log) && transfers == if ValidId(id) then Live(old(transfers), now) - {id}
          else Live(old(transfers), now)
    {
      hide Sound, AfterRead;
      assert forall x :: x in Live(transfers, now) ==> Live(transfers, now)[x] == transfers[x];
      hide Live;
      Prune(now);
      if |id.text| == 0 || |id.text| > 64 {
        return ReadRefused;
      }
      if id !in transfers {
        assert transfers - {id} == transfers;
        return ReadRefused;
      }
      var t := transfers[id];
      SlotData(transfers, id, nextToken, log);
      if t.data.None? || offset < 0 || offset > |t.data.value| - 1 || length < 1 || length > CHUNK_BYTES
          || offset != t.offset
         || length != Min(CHUNK_BYTES, |t.data.value| - offset) {
        Discard(id);
        return ReadRefused;
      }
      var chunk := TakeChunk(id, length);
      r := Chunk(offset, chunk);
    }
  }

  lemma NewKey(m: map<Id, Transfer>, id: Id, t: Transfer)
    requires id !in m
    ensures |m[id := t]| == |m| + 1
  {
    assert m[id := t].Keys == m.Keys + {id};
    assert |m[id := t].Keys| == |m[id := t]|;
  }

  // ---------- What others do meanwhile ----------

  /** An operation on the transfers that is not the receiver's own: every invoke of a receiver lets such operations
      run. */
  datatype Step =
    | ReleaseStep(id: Id)
    | ExpireStep(id: Id, now: real)
    | PruneStep(now: real)
    | ReserveStep(asked: Option<Id>, ttlSeconds: real, now: real)
    | CompleteStep(id: Id, captured: Captured, now: real)
    | ReadStep(id: Id, offset: int, length: int, now: real)
  {
    /** It names another transfer. The delayed task of any transfer, this one's too, may run at any time. */
    predicate Spares(me: Id) {
      match this
      case ReleaseStep(id) => id != me
      case ReserveStep(asked, _, _) => asked != Some(me)
      case CompleteStep(id, _, _) => id != me
      case ReadStep(id, _, _, _) => id != me
      case _ => true
    }

    /** It does not look at the clock after the time. */
    predicate Before(time: real) {
      ReleaseStep? || now < time
    }
  }

  predicate AllSpare(steps: seq<Step>, me: Id) {
    forall step :: step in steps ==> step.Spares(me)
  }

  predicate AllBefore(steps: seq<Step>, time: real) {
    forall step :: step in steps ==> step.Before(time)
  }

  /** The token is given out and no other slot has it. */
  predicate OwnToken(m: map<Id, Transfer>, next: nat, me: Id, token: nat) {
    token < next && forall x :: x in m && x != me ==> m[x].token != token
  }

  /** The receiver's transfer is as it was, or gone. */
  predicate AsItWas(was: map<Id, Transfer>, now: map<Id, Transfer>, me: Id) {
    me in now ==> me in was && now[me] == was[me]
  }

  lemma TokenUnlogged(m: map<Id, Transfer>, id: Id, next: nat, log: map<nat, Delivery>)
    requires Sound(m, next, log) && id in m && m[id].data.None?
    ensures m[id].token < next && m[id].token !in log
  {
    SlotData(m, id, next, log);
  }

  method RunStep(server: Transfers, ghost me: Id, step: Step, ghost token: nat)
    requires server.Valid() && step.Spares(me)
    modifies server
    ensures server.Valid() && AsItWas(old(server.transfers), server.transfers, me)
    ensures OwnToken(old(server.transfers), old(server.nextToken), me, token) ==>
              OwnToken(server.transfers, server.nextToken, me, token)
                  && (token in server.log <==> token in old(server.log))
    ensures me in old(server.transfers) && step.Before(old(server.transfers)[me].expiresAt) ==> me in server.transfers
  {
    hide ValidId, ValidSize, ValidInfo, Clamp, Sound;
    match step
    case ReleaseStep(id) =>
      var ok := server.Release(id);
    case ExpireStep(id, now) =>
      server.Expire(id, now);
    case PruneStep(now) =>
      server.Prune(now);
    case ReserveStep(asked, ttlSeconds, now) =>
      var refusal, reserved := server.Reserve(asked, ttlSeconds, now);
    case CompleteStep(id, captured, now) =>
      if id in server.transfers {
        var t := server.transfers[id];
        if t.data.None? {
          TokenUnlogged(server.transfers, id, server.nextToken, server.log);
          var begun := server.Complete(id, t.token, captured, now);
        }
      }
    case ReadStep(id, offset, length, now) =>
      var reply := server.Read(id, offset, length, now);
  }

  /** Any number of such operations. */
  method RunSteps(server: Transfers, ghost me: Id, steps: seq<Step>, ghost token: nat)
    requires server.Valid() && AllSpare(steps, me)
    modifies server
    ensures server.Valid() && AsItWas(old(server.transfers), server.transfers, me)
    ensures OwnToken(old(server.transfers), old(server.nextToken), me, token) ==>
              OwnToken(server.transfers, server.nextToken, me, token)
                  && (token in server.log <==> token in old(server.log))
    ensures me in old(server.transfers) && AllBefore(steps, old(server.transfers)[me].expiresAt) ==>
        me in server.transfers
  {
    hide Sound;
    for i := 0 to |steps|
      invariant server.Valid() && AsItWas(old(server.transfers), server.transfers, me)
      invariant OwnToken(old(server.transfers), old(server.nextToken), me, token) ==>
                  OwnToken(server.transfers, server.nextToken, me, token)
                      && (token in server.log <==> token in old(server.log))
      invariant me in old(server.transfers) && AllBefore(steps, old(server.transfers)[me].expiresAt) ==>
          me in server.transfers
    {
      RunStep(server, me, steps[i], token);
    }
  }

  // ---------- The receiver ----------

  datatype Received = Failed | Capture(info: Metadata, data: string)

  /** The clock and whatever else runs stay before the time. */
  ghost predicate InTime(clock: nat -> real, others: nat -> seq<Step>, time: real) {
    forall k: nat :: clock(k) < time && AllBefore(others(k), time)
  }

  lemma InTimeAt(clock: nat -> real, others: nat -> seq<Step>, time: real, k: nat)
    requires InTime(clock, others, time)
    ensures clock(k) < time && AllBefore(others(k), time)
  {}

  /**
   The reads of receive, from the first to the last chunk. Before read k anything others do may run. What is received is
   the data and its slot is free; it is received if neither the clock nor the others come upon the end of its time.
   */
  method ReceiveChunks(server: Transfers, id: Id, data: string, ghost token: nat, ghost expiresAt: real,
                       clock: nat -> real, others: nat -> seq<Step>) returns (received: Option<string>)
    requires server.Valid() && ValidId(id) && data != [] && (forall k: nat :: AllSpare(others(k), id))
    requires OwnToken(server.transfers, server.nextToken, id, token)
    requires id in server.transfers ==> server.transfers[id] == Transfer(token, Some(data), 0, expiresAt)
    modifies server
    ensures server.Valid()
    ensures received.Some? ==> received.value == data && id !in server.transfers
    ensures id in old(server.transfers) && InTime(clock, others, expiresAt) ==> received.Some?
  {
    hide ValidId, Sound, AllBefore, AllSpare;
    var chunks: string := [];
    var offset, n := 0, 2;
    while offset < |data|
      invariant server.Valid() && 0 <= offset <= |data| && chunks == data[..offset] && n >= 2
      invariant OwnToken(server.transfers, server.nextToken, id, token)
      invariant offset < |data| && id in server.transfers ==>
          server.transfers[id] == Transfer(token, Some(data), offset, expiresAt)
      invariant offset < |data| && id in old(server.transfers) && InTime(clock, others, expiresAt) ==>
          id in server.transfers
      invariant offset == |data| ==> id !in server.transfers
    {
      ghost var before := server.transfers;
      RunSteps(server, id, others(n), token);
      assert AsItWas(before, server.transfers, id);
      if InTime(clock, others, expiresAt) {
        InTimeAt(clock, others, expiresAt, n);
      }
      hide InTime;
      var length := Min(CHUNK_BYTES, |data| - offset);
      var reply := server.Read(id, offset, length, clock(n));
      n := n + 1;
      if reply.ReadRefused? || reply.offset != offset || |reply.data| != length {
        return None;
      }
      assert data[..offset] + reply.data == data[..offset + length];
      chunks := chunks + reply.data;
      offset := offset + length;
    }
    assert data[..|data|] == data;
    received := Some(chunks);
  }

  /** The capture is an image the sender may hand over. */
  predicate Sendable(captured: Captured) {
    captured.Image? && ValidInfo(captured.info) && ValidSize(|captured.data|, captured.info)
  }

  /** The base64 text of so many bytes: four characters for every three bytes begun. */
  predicate IsBase64Length(length: nat, bytes: nat) {
    length % 4 == 0 && 3 * (length / 4) >= bytes && 3 * (length / 4) < bytes + 3
  }

  /** Sides of at most 65536, whole groups of base64 of at most 64 MiB, and for raw pixels exactly the length that four
      bytes a pixel take. */
  lemma {:induction false} SendableLaw(captured: Captured)
    ensures Sendable(captured) <==>
              && captured.Image?
              && 1 <= captured.info.width <= 65536 && 1 <= captured.info.height <= 65536
              && 1 <= captured.info.nativeWidth <= 65536 && 1 <= captured.info.nativeHeight <= 65536
              && 4 <= |captured.data| <= 67_108_864 && |captured.data| % 4 == 0
              && (captured.info.encoding.Rgba8? ==>
                    IsBase64Length(|captured.data|, captured.info.width * captured.info.height * 4))
  {
    if captured.Image? {
      var bytes := captured.info.width * captured.info.height * 4;
      RawIsBase64(|captured.data|, bytes);
    }
  }

  lemma RawIsBase64(length: nat, bytes: nat)
    ensures length == (bytes + 2) / 3 * 4 <==> IsBase64Length(length, bytes)
  {
    var k := length / 4;
    if IsBase64Length(length, bytes) {
      assert length == 4 * k && (bytes + 2) / 3 == k;
    }
  }

  /** What follows a reservation: the capture, which yields, and the reads. */
  method CaptureAndRead(server: Transfers, id: Id, captured: Captured, token: nat, ghost expiresAt: real,
                        clock: nat -> real, others: nat -> seq<Step>) returns (r: Received)
    requires server.Valid() && ValidId(id) && (forall k: nat :: AllSpare(others(k), id))
    requires OwnToken(server.transfers, server.nextToken, id, token) && token !in server.log
    requires id in server.transfers && server.transfers[id] == Transfer(token, None, 0, expiresAt)
    modifies server
    ensures server.Valid()
    ensures r.Capture? ==> captured == Image(r.info, r.data)
    ensures Sendable(captured) && InTime(clock, others, expiresAt) ==> r.Capture?
  {
    hide ValidId, ValidSize, ValidInfo, Sound, AllBefore, AllSpare;
    if InTime(clock, others, expiresAt) {
      InTimeAt(clock, others, expiresAt, 1);
      InTimeAt(clock, others, expiresAt, 0);
    }
    hide InTime;
    RunSteps(server, id, others(1), token);
    var begun := server.Complete(id, token, captured, clock(0));
    if !begun.Ready? || !ValidSize(begun.totalBytes, begun.info) {
      return Failed;
    }
    SizedData(begun.totalBytes, begun.info);
    var data := ReceiveChunks(server, id, captured.data, token, expiresAt, clock, others);
    r := if data.Some? then Capture(begun.info, data.value) else Failed;
  }

  /**
   receive, under an identity no other request names, against a sender that answers with the operations above at the
   times the clock gives. Others' operations run at every point where the receiver waits: before begin, while the
   capture is taken and before each read. Whatever is received is what was captured, and the slot is free again in
   every case. `atBegin` is what begin finds: if a slot is free then, and nothing comes upon the end of the reserved
   time, the capture is received.
   */
  method Receive(server: Transfers, id: Id, captured: Captured, ttlSeconds: real, start: real, clock: nat -> real,
      others: nat -> seq<Step>)
    returns (r: Received, ghost atBegin: map<Id, Transfer>)
    requires server.Valid() && ValidId(id) && forall k: nat :: AllSpare(others(k), id)
    modifies server
    ensures server.Valid() && id !in server.transfers
    ensures r.Capture? ==> captured == Image(r.info, r.data)
    ensures id !in atBegin
    ensures (|Live(atBegin, start)| < 2 && Sendable(captured)
        && InTime(clock, others, start + Clamp(ttlSeconds))) ==> r.Capture?
  {
    hide Refusal, ValidId, ValidSize, ValidInfo, Clamp, Sound, AllBefore, AllSpare, InTime, OwnToken, Sendable;
    r := Failed;
    var released := server.Release(id);
    RunSteps(server, id, others(0), 0);
    atBegin := server.transfers;
    ghost var live := Live(atBegin, start);
    TokensBelow(live, atBegin, server.nextToken, server.log);
    hide Live;
    var refusal, token := server.Reserve(Some(id), ttlSeconds, start);
    if refusal.None? {
      NewTokenIsOwn(live, id, server.transfers[id], token);
      r := CaptureAndRead(server, id, captured, token, start + Clamp(ttlSeconds), clock, others);
    }
    released := server.Release(id);
  }

  lemma NewTokenIsOwn(live: map<Id, Transfer>, me: Id, t: Transfer, token: nat)
    requires forall x :: x in live ==> live[x].token != token
    ensures OwnToken(live[me := t], token + 1, me, token)
  {}

  lemma TokensBelow(live: map<Id, Transfer>, m: map<Id, Transfer>, next: nat, log: map<nat, Delivery>)
    requires Sound(m, next, log) && live.Keys <= m.Keys && forall x :: x in live ==> live[x] == m[x]
    ensures live.Keys <= m.Keys && next !in log && forall x :: x in live ==> live[x].token != next
  {
    SoundLater(m, next, log);
  }

  lemma SizedData(size: int, info: Metadata)
    requires ValidSize(size, info)
    ensures 4 <= size <= MAX_TRANSFER_BYTES
  {}
}
