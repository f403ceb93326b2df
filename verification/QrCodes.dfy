/**
 QR codes and their rotation. A rotation runs under the room lock, but the time it revokes
 and compares with is the start of its transaction, which may lie before the commits of
 rotations it waited for. A join looks its code up, locks the room and looks it up again,
 with its own transaction's start as the time.
 */
module QrCodes {
  import opened Common
  import opened Tables

  type Time = int

  const SECONDS: Time := 1_000_000
  const MIN_TTL := 60
  const MAX_TTL := 604800

  datatype Code = Code(room: RoomId, code: string, expires: Time, revoked: bool)

  predicate Valid(c: Code, at: Time) {
    !c.revoked && c.expires > at
  }

  /** The room's unrevoked codes that expire after `start` are revoked. */
  function Revoking(c: Code, room: RoomId, start: Time): Code {
    if c.room == room && Valid(c, start) then c.(revoked := true) else c
  }

  /** A rotation that committed; rotations are listed in the order they had the room lock. */
  datatype Rotation = Rotation(room: RoomId, code: string, expires: Time, start: Time)

  function Rotated(codes: seq<Code>, r: Rotation): seq<Code> {
    seq(|codes|, i requires 0 <= i < |codes| => Revoking(codes[i], r.room, r.start)) + [Code(r.room, r.code, r.expires,
                                                                                             false)]
  }

  function After(rotations: seq<Rotation>): (codes: seq<Code>)
    ensures |codes| == |rotations|
  {
    if rotations == [] then []
    else Rotated(After(rotations[..|rotations| - 1]), rotations[|rotations| - 1])
  }

  /** The room a code gives access to at a time. */
  function Lookup(codes: seq<Code>, code: string, at: Time): Option<RoomId> {
    if codes == [] then None
    else if codes[0].code == code && Valid(codes[0], at) then Some(codes[0].room)
    else Lookup(codes[1..], code, at)
  }

  datatype Refusal = RoomNotFound | ValidationFailed | CodeTaken | InvalidCode

  predicate ValidTtl(ttl: int) {
    MIN_TTL <= ttl <= MAX_TTL
  }

  class QrTable {
    var codes: seq<Code>
    /** The rooms with their default lifetime of a code, in seconds. */
    var rooms: map<RoomId, int>

    constructor (rooms: map<RoomId, int>)
      ensures codes == [] && this.rooms == rooms
    {
      codes, this.rooms := [], rooms;
    }

    method RotateQRCode(room: RoomId, code: string, expires: Time, start: Time)
      modifies this`codes
      ensures codes == Rotated(old(codes), Rotation(room, code, expires, start))
    {
      var i := 0;
      while i < |codes|
        invariant i <= |codes| == |old(codes)|
        invariant forall k :: 0 <= k < i ==> codes[k] == Revoking(old(codes)[k], room, start)
        invariant forall k :: i <= k < |codes| ==> codes[k] == old(codes)[k]
      {
        if codes[i].room == room && !codes[i].revoked && codes[i].expires > start {
          codes := codes[i := codes[i].(revoked := true)];
        }
        i := i + 1;
      }
      codes := codes + [Code(room, code, expires, false)];
    }

    /** `now` is the application's clock, `start` the transaction's start; `token` is the
        random code drawn for the request. */
    method CreateQRCode(room: RoomId, expiresIn: Option<int>, token: string, now: Time,
                        start: Time) returns (result: Result<Code, Refusal>)
      modifies this`codes
      ensures var asked := expiresIn.Some? ==> 60 <= expiresIn.value <= 604800;
              var valid := asked && room in rooms && (expiresIn.None? ==> 60 <= rooms[room] <= 604800);
              var taken := exists c :: c in old(codes) && c.code == token;
              && (result == Fail(ValidationFailed) <==> !asked || (room in rooms && !valid))
              && (result == Fail(RoomNotFound) <==> asked && room !in rooms)
              && (result == Fail(CodeTaken) <==> valid && taken)
              && (result.Ok? <==> valid && !taken)
      ensures result.Ok? ==>
                var ttl := if expiresIn.Some? then expiresIn.value else rooms[room];
                && result.value == Code(room, token, now + ttl * 1_000_000, false)
                && codes == Rotated(old(codes), Rotation(room, token, now + ttl * 1_000_000, start))
      ensures result.Fail? ==> codes == old(codes)
    {
      if expiresIn.Some? && !ValidTtl(expiresIn.value) { return Fail(ValidationFailed); }
      if room !in rooms { return Fail(RoomNotFound); }
      var ttl := rooms[room];
      if expiresIn.Some? { ttl := expiresIn.value; }
      if !ValidTtl(ttl) { return Fail(ValidationFailed); }
      if exists c :: c in codes && c.code == token { return Fail(CodeTaken); }
      RotateQRCode(room, token, now + ttl * SECONDS, start);
      result := Ok(Code(room, token, now + ttl * SECONDS, false));
    }

    method GetByQRCode(code: string, start: Time) returns (room: Option<RoomId>)
      ensures room == Lookup(codes, code, start)
    {
      room := None;
      var i := 0;
      while i < |codes| && room.None?
        invariant i <= |codes|
        invariant Lookup(codes, code, start) == if room.Some? then room else Lookup(codes[i..], code, start)
      {
        if codes[i].code == code && !codes[i].revoked && codes[i].expires > start {
          room := Some(codes[i].room);
        }
        i := i + 1;
      }
    }
  }

  /** A rotation adds the new code, revokes the room's codes that expire after its start, and
      changes nothing else. */
  lemma {:induction false} RotationEffect(codes: seq<Code>, r: Rotation)
    ensures var after := Rotated(codes, r);
            && |after| == |codes| + 1 && after[|codes|] == Code(r.room, r.code, r.expires, false)
            && (forall i :: 0 <= i < |codes| ==>
                  after[i] == Code(codes[i].room, codes[i].code, codes[i].expires,
                                   codes[i].revoked || (codes[i].room == r.room && codes[i].expires > r.start)))
  {
  }

  /** A look finds the room of a code that is listed, not revoked and not expired, and nothing
      if there is none. */
  lemma {:induction false} LookupEffect(codes: seq<Code>, code: string, at: Time)
    ensures var found := Lookup(codes, code, at);
            && (found.None? <==> forall c :: c in codes && c.code == code ==> c.revoked || c.expires <= at)
            && (found.Some? ==>
                  exists c :: c in codes && c.code == code && !c.revoked && c.expires > at && c.room == found.value)
  {
    if codes != [] {
      LookupEffect(codes[1..], code, at);
      assert codes == [codes[0]] + codes[1..];
      if Lookup(codes, code, at).Some? && !(codes[0].code == code && Valid(codes[0], at)) {
        var c :| c in codes[1..] && c.code == code && !c.revoked && c.expires > at
                 && c.room == Lookup(codes[1..], code, at).value;
        assert c in codes;
      }
    }
  }

  // ---------- which codes are revoked ----------

  ghost predicate DistinctCodes(rotations: seq<Rotation>) {
    forall i, j :: 0 <= i < j < |rotations| ==> rotations[i].code != rotations[j].code
  }

  /** Rotation `j` revokes the code of rotation `i`. */
  predicate Revokes(rotations: seq<Rotation>, j: nat, i: nat)
    requires i < |rotations| && j < |rotations|
  {
    i < j && rotations[j].room == rotations[i].room && rotations[j].start < rotations[i].expires
  }

  /** The code of a rotation is revoked exactly when a later rotation of its room started
      before it expired. */
  lemma {:induction false} RevokedIff(rotations: seq<Rotation>, i: nat)
    requires i < |rotations|
    ensures var r := rotations[i];
            var revoked := exists j :: 0 <= j < |rotations| && Revokes(rotations, j, i);
            After(rotations)[i] == Code(r.room, r.code, r.expires, revoked)
  {
    var n := |rotations| - 1;
    var front := rotations[..n];
    if i < n {
      RevokedIff(front, i);
      assert forall j :: 0 <= j < n ==> (Revokes(rotations, j, i) <==> Revokes(front, j, i));
      assert Revokes(rotations, n, i)
             <==> rotations[n].room == rotations[i].room && rotations[n].start < rotations[i].expires;
    }
  }

  lemma {:induction false} ValidCodeIsLatest(rotations: seq<Rotation>, at: Time, i: nat)
    requires i < |rotations|
    requires forall r :: r in rotations && r.room == rotations[i].room ==> r.start <= at
    requires Valid(After(rotations)[i], at)
    ensures forall j :: i < j < |rotations| ==> rotations[j].room != rotations[i].room
  {
    RevokedIff(rotations, i);
    forall j | i < j < |rotations| ensures rotations[j].room != rotations[i].room {
      assert rotations[j] in rotations;
      assert !Revokes(rotations, j, i);
    }
  }

  /** At every instant, once every rotation so far has started, a room has at most one
      unrevoked unexpired code. */
  lemma {:induction false} AtMostOneValidCode(rotations: seq<Rotation>, at: Time, i: nat, k: nat)
    requires i < |rotations| && k < |rotations| && rotations[i].room == rotations[k].room
    requires forall r :: r in rotations && r.room == rotations[i].room ==> r.start <= at
    requires Valid(After(rotations)[i], at) && Valid(After(rotations)[k], at)
    ensures i == k
  {
    ValidCodeIsLatest(rotations, at, i);
    ValidCodeIsLatest(rotations, at, k);
  }

  // ---------- who is admitted ----------

  lemma {:induction false} LookupFinds(codes: seq<Code>, i: nat, at: Time)
    requires i < |codes|
    requires forall a, b :: 0 <= a < b < |codes| ==> codes[a].code != codes[b].code
    ensures Lookup(codes, codes[i].code, at) == if Valid(codes[i], at) then Some(codes[i].room) else None
  {
    if i == 0 {
      if !Valid(codes[0], at) {
        NotListed(codes[1..], codes[0].code, at);
      }
    } else {
      LookupFinds(codes[1..], i - 1, at);
    }
  }

  lemma {:induction false} NotListed(codes: seq<Code>, code: string, at: Time)
    requires forall a :: 0 <= a < |codes| ==> codes[a].code != code
    ensures Lookup(codes, code, at) == None
  {
    if codes != [] {
      NotListed(codes[1..], code, at);
    }
  }

  lemma CodesStayDistinct(rotations: seq<Rotation>)
    requires DistinctCodes(rotations)
    ensures forall a, b :: 0 <= a < b < |After(rotations)| ==> After(rotations)[a].code != After(rotations)[b].code
  {
    forall a | 0 <= a < |rotations| ensures After(rotations)[a].code == rotations[a].code {
      RevokedIff(rotations, a);
    }
  }

  /** The second look, under the room lock, decides: a join that started at `start` is
      admitted by the code of rotation `i` exactly when it started before the code expired
      and the code had expired before any later rotation of the room that has had the lock
      started. */
  lemma {:induction false} AdmittedIff(rotations: seq<Rotation>, i: nat, start: Time)
    requires DistinctCodes(rotations) && i < |rotations|
    ensures Lookup(After(rotations), rotations[i].code, start) == Some(rotations[i].room)
            <==> start < rotations[i].expires
                 && forall j :: i < j < |rotations| && rotations[j].room == rotations[i].room ==>
                      rotations[i].expires <= rotations[j].start
  {
    CodesStayDistinct(rotations);
    RevokedIff(rotations, i);
    LookupFinds(After(rotations), i, start);
    if j :| i < j < |rotations| && rotations[j].room == rotations[i].room && rotations[j].start < rotations[i].expires {
      assert Revokes(rotations, j, i);
    }
  }

  /** A join that locks the room after a rotation is never admitted by a code it revoked. */
  lemma {:induction false} RevokedCodeNeverAdmits(rotations: seq<Rotation>, i: nat, j: nat, start: Time)
    requires DistinctCodes(rotations) && i < j < |rotations| && Revokes(rotations, j, i)
    ensures Lookup(After(rotations), rotations[i].code, start) == None
  {
    CodesStayDistinct(rotations);
    RevokedIff(rotations, i);
    LookupFinds(After(rotations), i, start);
  }

  /** A join that started after a rotation had started, in particular after its commit, is
      never admitted by any older code of the room, revoked or not. */
  lemma {:induction false} OlderCodeNeverAdmitsLaterJoin(rotations: seq<Rotation>, i: nat, j: nat, start: Time)
    requires DistinctCodes(rotations) && i < j < |rotations| && rotations[i].room == rotations[j].room
    requires rotations[j].start <= start
    ensures Lookup(After(rotations), rotations[i].code, start) == None
  {
    CodesStayDistinct(rotations);
    RevokedIff(rotations, i);
    LookupFinds(After(rotations), i, start);
    assert start < rotations[i].expires ==> Revokes(rotations, j, i);
  }

  /** A join that started earlier can still be admitted by an older code after a rotation:
      code `a` expires at 10, the rotation starts at 10 and does not revoke it, and the
      join, started at 9, gets the lock afterwards. */
  lemma {:induction false} EarlierJoinCanUseOlderCode()
    ensures var rotations := [Rotation(0, "a", 10, 0), Rotation(0, "b", 20, 10)];
            Lookup(After(rotations), "a", 9) == Some(0) && Lookup(After(rotations), "b", 9) == Some(0)
  {
    var rotations := [Rotation(0, "a", 10, 0), Rotation(0, "b", 20, 10)];
    assert rotations[0].code[0] != rotations[1].code[0];
    AdmittedIff(rotations, 0, 9);
    AdmittedIff(rotations, 1, 9);
  }

  /** Revocation is final: what the second look finds, the first look had found, so the
      first look refuses nothing the second would admit. */
  lemma {:induction false} SecondLookIsStricter(rotations: seq<Rotation>, n: nat, i: nat, start: Time)
    requires DistinctCodes(rotations) && i < n <= |rotations|
    requires Lookup(After(rotations), rotations[i].code, start) == Some(rotations[i].room)
    ensures Lookup(After(rotations[..n]), rotations[i].code, start) == Some(rotations[i].room)
  {
    AdmittedIff(rotations, i, start);
    assert rotations[..n][i] == rotations[i];
    AdmittedIff(rotations[..n], i, start);
  }
}
