/** The monotone identifier generator. Timestamps follow the layout of section 5.7
    of RFC 9562: milliseconds in the first six bytes, most significant first. */
module Uuidv7 {
  import opened Strings

  newtype byte = b: int | 0 <= b < 256

  type Uuid = s: seq<byte> | |s| == 16 witness seq(16, _ => 0)

  function UnixTimeMs(id: Uuid): (ms: nat)
    ensures ms < 0x1_0000_0000_0000
  {
    (id[0] as nat) * 0x100_0000_0000 + (id[1] as nat) * 0x1_0000_0000 + (id[2] as nat) * 0x100_0000
      + (id[3] as nat) * 0x1_0000 + (id[4] as nat) * 0x100 + (id[5] as nat)
  }

  function BigEndian(n: nat, width: nat): (r: seq<byte>)
    ensures |r| == width
  {
    if width == 0 then [] else BigEndian(n / 256, width - 1) + [(n % 256) as byte]
  }

  function Horner(s: seq<byte>): nat {
    if s == [] then 0 else 256 * Horner(s[..|s| - 1]) + s[|s| - 1] as nat
  }

  function Power256(width: nat): (p: nat)
    ensures p > 0
  {
    if width == 0 then 1 else 256 * Power256(width - 1)
  }

  lemma {:induction false} HornerInverts(n: nat, width: nat)
    requires n < Power256(width)
    ensures Horner(BigEndian(n, width)) == n
  {
    if width > 0 {
      HornerInverts(n / 256, width - 1);
      var r := BigEndian(n, width);
      assert r[..width - 1] == BigEndian(n / 256, width - 1);
    }
  }

  lemma {:induction false} BigEndianInverts(s: seq<byte>)
    ensures BigEndian(Horner(s), |s|) == s
  {
    if s != [] {
      BigEndianInverts(s[..|s| - 1]);
    }
  }

  lemma TimestampIsHorner(id: Uuid)
    ensures UnixTimeMs(id) == Horner(id[..6])
  {
    assert id[..6][..5] == id[..5] && id[..5][..4] == id[..4] && id[..4][..3] == id[..3];
    assert id[..3][..2] == id[..2] && id[..2][..1] == id[..1] && id[..1][..0] == [];
    assert Horner(id[..1]) == id[0] as nat;
    assert Horner(id[..2]) == 256 * Horner(id[..1]) + id[1] as nat;
    assert Horner(id[..3]) == 256 * Horner(id[..2]) + id[2] as nat;
    assert Horner(id[..4]) == 256 * Horner(id[..3]) + id[3] as nat;
    assert Horner(id[..5]) == 256 * Horner(id[..4]) + id[4] as nat;
    assert Horner(id[..6]) == 256 * Horner(id[..5]) + id[5] as nat;
  }

  /** Reading the timestamp inverts its big-endian placement, both ways. */
  lemma TimestampRoundTrip(ms: nat, rest: seq<byte>, id: Uuid)
    requires ms < 0x1_0000_0000_0000 && |rest| == 10
    ensures UnixTimeMs(BigEndian(ms, 6) + rest) == ms
    ensures BigEndian(UnixTimeMs(id), 6) == id[..6]
  {
    var made: Uuid := BigEndian(ms, 6) + rest;
    assert made[..6] == BigEndian(ms, 6);
    TimestampIsHorner(made);
    assert Power256(6) == 0x1_0000_0000_0000;
    HornerInverts(ms, 6);
    TimestampIsHorner(id);
    BigEndianInverts(id[..6]);
  }

  // ----- The generator -----

  predicate Acceptable(id: Uuid, last: Option<nat>) {
    last.None? || UnixTimeMs(id) > last.value
  }

  /** How long the generator sleeps after a rejected reading. */
  function Wait(last: nat, ts: nat): nat
    requires ts <= last
  {
    last - ts + 1
  }

  /** The first acceptable clock reading from `pos` on. */
  function NextIndex(readings: seq<Uuid>, pos: nat, last: Option<nat>): (k: Option<nat>)
    requires pos <= |readings|
    ensures k.Some? ==> pos <= k.value < |readings| && Acceptable(readings[k.value], last)
    decreases |readings| - pos
  {
    if pos == |readings| then None
    else if Acceptable(readings[pos], last) then Some(pos)
    else NextIndex(readings, pos + 1, last)
  }

  /** `readings` are the identifiers the clock source yields, one per loop turn; a
      call that has not found an acceptable one by their end has not returned. */
  class Generator {
    var last: Option<nat>
    const readings: seq<Uuid>
    var pos: nat

    constructor (clock: seq<Uuid>)
      ensures last == None && readings == clock && pos == 0
    {
      last, readings, pos := None, clock, 0;
    }

    method NextId() returns (id: Option<Uuid>)
      requires pos <= |readings|
      modifies this`last, this`pos
      ensures pos <= |readings|
      ensures match NextIndex(readings, old(pos), old(last))
              case None => id == None && last == old(last) && pos == |readings|
              case Some(k) => id == Some(readings[k]) && pos == k + 1 && last == Some(UnixTimeMs(readings[k]))
    {
      while pos < |readings|
        invariant pos <= |readings| && last == old(last)
        invariant NextIndex(readings, pos, last) == NextIndex(readings, old(pos), old(last))
      {
        var candidate := readings[pos];
        var ts := UnixTimeMs(candidate);
        pos := pos + 1;
        if last.Some? && ts <= last.value {
          continue;
        }
        last := Some(ts);
        return Some(candidate);
      }
      return None;
    }
  }

  ghost predicate Increasing(ids: seq<Uuid>) {
    forall i, j | 0 <= i < j < |ids| :: UnixTimeMs(ids[i]) < UnixTimeMs(ids[j])
  }

  /** Each identifier is the first acceptable reading after the previous one. */
  function Generated(readings: seq<Uuid>, pos: nat, last: Option<nat>, count: nat): seq<Uuid>
    requires pos <= |readings|
    decreases count
  {
    if count == 0 then []
    else match NextIndex(readings, pos, last)
         case None => []
         case Some(k) => [readings[k]] + Generated(readings, k + 1, Some(UnixTimeMs(readings[k])), count - 1)
  }

  method GenerateIds(readings: seq<Uuid>, count: nat) returns (ids: seq<Uuid>)
    ensures ids == Generated(readings, 0, None, count)
  {
    var gen := new Generator(readings);
    ids := [];
    for n := 0 to count
      invariant fresh(gen) && gen.readings == readings && gen.pos <= |readings|
      invariant ids + Generated(readings, gen.pos, gen.last, count - n) == Generated(readings, 0, None, count)
    {
      hide NextIndex;
      var id := gen.NextId();
      if id.None? {
        break;
      }
      ids := ids + [id.value];
    }
  }

  /** For every sequence of clock readings the identifiers of one generator have
      strictly increasing timestamps, hence are pairwise different. */
  lemma {:induction false} GeneratedIncreases(readings: seq<Uuid>, pos: nat, last: Option<nat>, count: nat)
    requires pos <= |readings|
    ensures var ids := Generated(readings, pos, last, count);
            && |ids| <= count && Increasing(ids)
            && (forall i | 0 <= i < |ids| :: Acceptable(ids[i], last))
    ensures var ids := Generated(readings, pos, last, count);
            forall i, j | 0 <= i < j < |ids| :: ids[i] != ids[j]
    decreases count
  {
    if count > 0 && NextIndex(readings, pos, last).Some? {
      var k := NextIndex(readings, pos, last).value;
      var now := Some(UnixTimeMs(readings[k]));
      GeneratedIncreases(readings, k + 1, now, count - 1);
      var rest, ids := Generated(readings, k + 1, now, count - 1), Generated(readings, pos, last, count);
      hide Generated, UnixTimeMs;
      assert ids == [readings[k]] + rest;
      forall i, j | 0 <= i < j < |ids|
        ensures UnixTimeMs(ids[i]) < UnixTimeMs(ids[j])
      {
        assert ids[j] == rest[j - 1] && Acceptable(rest[j - 1], now);
        assert i > 0 ==> ids[i] == rest[i - 1];
      }
    }
  }

  /** The sleep after the reading at `k` advances the clock by at least the
      requested time. */
  predicate SleepHonoured(readings: seq<Uuid>, k: nat, last: nat)
    requires k + 1 < |readings| && UnixTimeMs(readings[k]) <= last
  {
    UnixTimeMs(readings[k + 1]) >= UnixTimeMs(readings[k]) + Wait(last, UnixTimeMs(readings[k]))
  }

  /** A clock that advances by `w` from `ts` has passed `last`. */
  predicate Passes(last: nat, ts: nat, w: nat) {
    ts + w > last
  }

  /** With an honest sleep a call retries at most once, and retries exactly when the
      first reading is not later than the last identifier; no shorter sleep would do. */
  lemma RetriesAtMostOnce(readings: seq<Uuid>, pos: nat, last: Option<nat>)
    requires pos + 1 < |readings|
    requires !Acceptable(readings[pos], last) ==> SleepHonoured(readings, pos, last.value)
    ensures NextIndex(readings, pos, last) == Some(if Acceptable(readings[pos], last) then pos else pos + 1)
    ensures !Acceptable(readings[pos], last) ==>
              var ts := UnixTimeMs(readings[pos]);
              forall w: nat :: Passes(last.value, ts, w) <==> w >= Wait(last.value, ts)
  {
  }
}
