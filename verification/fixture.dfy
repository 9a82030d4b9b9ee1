/**
 * DMX addressing of one patched fixture: the channel cache that `build`
 * creates from the GDTF mode's DMX breaks, and the operations that map
 * channel indices onto slots `address + i` of the fixture's universe
 * (`setDMX`, `clear`, `getProgrammerData`, `get_channel_by_attribute`).
 */
module Fixture {
  import opened Wrappers
  import Text
  import opened DmxData

  /** A channel as `pygdtf.utils.get_dmx_channels` reports it. */
  datatype GdtfChannel = GdtfChannel(id: string, geometry: string, default: int)

  /** `DMX_Fixture_Channel`: one entry of the fixture's channel cache. */
  datatype Channel = Channel(id: string, default: int, geometry: string)

  /** `DMX_Fixture.universe`, an `IntProperty` with min 0 and max 511. */
  type UniverseNumber = u: int | 0 <= u <= 511

  /** `DMX_Fixture.address`, an `IntProperty` with min 1 and max 512. */
  type DmxAddress = a: int | 1 <= a <= 512 witness 1

  /** The DMX part of a `DMX_Fixture`. */
  datatype Patch = Patch(universe: UniverseNumber, address: DmxAddress, channels: seq<Channel>)

  /** Assigning to a property with hard limits stores the nearest limit. */
  function Clamp(v: int, lo: int, hi: int): (r: int)
    requires lo <= hi
    ensures lo <= r <= hi
    ensures lo <= v <= hi ==> r == v
    ensures v < lo ==> r == lo
    ensures v > hi ==> r == hi
  {
    if v < lo then lo else if v > hi then hi else v
  }

  /** The shutter test of `build`: "shutter" occurs in the lower-cased id. */
  predicate IsShutter(id: string) {
    Text.Contains(Text.Lower(id), "shutter")
  }

  /** The cache entry `build` makes for one GDTF channel. */
  function CacheEntry(ch: GdtfChannel): Channel {
    Channel(ch.id, if IsShutter(ch.id) then 0 else ch.default, ch.geometry)
  }

  /** Where break `b` starts in the concatenation of the breaks. */
  function Offset(breaks: seq<seq<GdtfChannel>>, b: nat): nat
    requires b <= |breaks|
  {
    if b == 0 then 0 else Offset(breaks, b - 1) + |breaks[b - 1]|
  }

  lemma {:induction false} OffsetOfPrefix(breaks: seq<seq<GdtfChannel>>, k: nat, b: nat)
    requires b <= k <= |breaks|
    ensures Offset(breaks[..k], b) == Offset(breaks, b)
  {
    if b > 0 {
      OffsetOfPrefix(breaks, k, b - 1);
      assert breaks[..k][b - 1] == breaks[b - 1];
    }
  }

  /** Break `b` ends no later than the whole concatenation. */
  lemma {:induction false} OffsetMonotone(breaks: seq<seq<GdtfChannel>>, b: nat, c: nat)
    requires b <= c <= |breaks|
    ensures Offset(breaks, b) <= Offset(breaks, c)
    decreases c - b
  {
    if b < c {
      OffsetMonotone(breaks, b, c - 1);
    }
  }

  /** The channel cache of `build`: the DMX breaks merged in order, each
      GDTF channel turned into its cache entry. */
  function ChannelCache(breaks: seq<seq<GdtfChannel>>): (r: seq<Channel>)
    ensures |r| == Offset(breaks, |breaks|)
    ensures forall k :: 0 <= k < |r| && IsShutter(r[k].id) ==> r[k].default == 0
    decreases |breaks|
  {
    if |breaks| == 0 then []
    else
      var n := |breaks| - 1;
      OffsetOfPrefix(breaks, n, n);
      ChannelCache(breaks[..n]) + seq(|breaks[n]|, j requires 0 <= j < |breaks[n]| => CacheEntry(breaks[n][j]))
  }

  /** The cache is the in-order concatenation of the breaks: channel `j` of
      break `b` sits at `Offset(b) + j` and keeps its id and geometry; its
      default is 0 when the id mentions "shutter" in any letter case, and the
      profile default otherwise. */
  lemma {:induction false} ChannelCacheIsConcatenation(breaks: seq<seq<GdtfChannel>>, b: nat, j: nat)
    requires b < |breaks| && j < |breaks[b]|
    ensures Offset(breaks, b) + j < |ChannelCache(breaks)|
    ensures var ch := ChannelCache(breaks)[Offset(breaks, b) + j];
      && ch.id == breaks[b][j].id && ch.geometry == breaks[b][j].geometry
      && ch.default == (if IsShutter(breaks[b][j].id) then 0 else breaks[b][j].default)
    decreases |breaks|
  {
    var n := |breaks| - 1;
    var front := ChannelCache(breaks[..n]);
    OffsetOfPrefix(breaks, n, n);
    assert ChannelCache(breaks)
        == front + seq(|breaks[n]|, j requires 0 <= j < |breaks[n]| => CacheEntry(breaks[n][j]));
    if b < n {
      OffsetOfPrefix(breaks, n, b);
      OffsetOfPrefix(breaks, n, b + 1);
      OffsetMonotone(breaks, b + 1, n);
      assert breaks[..n][b] == breaks[b];
      ChannelCacheIsConcatenation(breaks[..n], b, j);
    }
  }

  /** `build` stores the requested universe and address clamped to the
      properties' limits, and the merged channel cache. */
  function Build(universe: int, address: int, breaks: seq<seq<GdtfChannel>>): (p: Patch)
    ensures 0 <= universe <= 511 ==> p.universe == universe
    ensures 1 <= address <= 512 ==> p.address == address
    ensures p.channels == ChannelCache(breaks)
  {
    Patch(Clamp(universe, 0, 511), Clamp(address, 1, 512), ChannelCache(breaks))
  }

  /** Writes `chs[i].default` to slot `address + i` for every i, in order. */
  function WriteDefaults(buf: Buffer, universe: int, address: int, chs: seq<Channel>): (r: Buffer)
    ensures forall k :: InBlock(k, universe, address, |chs|) ==> k in r && r[k] == chs[k.1 - address].default
    ensures forall k :: !InBlock(k, universe, address, |chs|) ==> Unchanged(buf, r, k)
    decreases |chs|
  {
    if |chs| == 0 then buf
    else
      var rest := WriteDefaults(Set(buf, universe, address, chs[0].default), universe, address + 1, chs[1..]);
      assert Unchanged(Set(buf, universe, address, chs[0].default), rest, (universe, address));
      assert forall k :: InBlock(k, universe, address + 1, |chs| - 1) ==> chs[1..][k.1 - (address + 1)] == chs[k.1 - address];
      rest
  }

  /** `DMX_Fixture.clear`: channel i's default goes to slot `address + i` of
      the fixture's universe, and no other slot changes. */
  function Clear(p: Patch, buf: Buffer): (r: Buffer)
    ensures forall i :: 0 <= i < |p.channels| ==> Get(r, p.universe, p.address + i) == p.channels[i].default
    ensures forall k :: !InBlock(k, p.universe, p.address, |p.channels|) ==> Unchanged(buf, r, k)
  {
    WriteDefaults(buf, p.universe, p.address, p.channels)
  }

  /** `k` is a slot `setDMX` writes: that of a channel whose id is a parameter. */
  predicate Matched(p: Patch, pvalues: map<string, int>, n: int, k: (int, int)) {
    InBlock(k, p.universe, p.address, n) && 0 <= k.1 - p.address < |p.channels|
    && p.channels[k.1 - p.address].id in pvalues
  }

  /** `DMX_Fixture.setDMX`. Every channel whose id equals a parameter name
      gets that parameter's value at slot `address + idx`; nothing else is
      written. The source walks the parameters and, for each, all channels;
      since each channel matches at most one parameter this is the same as
      walking the channels once. */
  method SetDmx(p: Patch, pvalues: map<string, int>, buf: Buffer) returns (r: Buffer)
    ensures forall idx :: 0 <= idx < |p.channels| && p.channels[idx].id in pvalues ==>
      Get(r, p.universe, p.address + idx) == pvalues[p.channels[idx].id]
    ensures forall k :: !Matched(p, pvalues, |p.channels|, k) ==> Unchanged(buf, r, k)
    ensures (forall idx :: 0 <= idx < |p.channels| ==> p.channels[idx].id !in pvalues) ==> r == buf
  {
    r := buf;
    var i := 0;
    while i < |p.channels|
      invariant 0 <= i <= |p.channels|
      invariant forall idx :: 0 <= idx < i && p.channels[idx].id in pvalues ==>
        Get(r, p.universe, p.address + idx) == pvalues[p.channels[idx].id]
      invariant forall k :: !Matched(p, pvalues, i, k) ==> Unchanged(buf, r, k)
    {
      var id := p.channels[i].id;
      if id in pvalues {
        var before := r;
        r := Set(r, p.universe, p.address + i, pvalues[id]);
        forall k | !Matched(p, pvalues, i + 1, k)
          ensures Unchanged(buf, r, k)
        {
          assert k != (p.universe as int, p.address + i);
          assert Unchanged(buf, before, k);
        }
      }
      i := i + 1;
    }
    if forall idx :: 0 <= idx < |p.channels| ==> p.channels[idx].id !in pvalues {
      forall k | k in r || k in buf
        ensures k in r && k in buf && r[k] == buf[k]
      {
        assert !Matched(p, pvalues, |p.channels|, k);
        assert Unchanged(buf, r, k);
      }
    }
  }

  /** Channel `c` is the last one with its id. */
  ghost predicate LastWithId(chs: seq<Channel>, c: int)
    requires 0 <= c < |chs|
  {
    forall d :: c < d < |chs| ==> chs[d].id != chs[c].id
  }

  /** The ids of a channel list. */
  function Ids(chs: seq<Channel>): set<string> {
    set c | 0 <= c < |chs| :: chs[c].id
  }

  /** The dictionary `getProgrammerData` builds from ids and buffer values:
      entries are written in channel order, so a later duplicate id wins. */
  function IdMap(chs: seq<Channel>, data: seq<int>): (r: map<string, int>)
    requires |data| == |chs|
    ensures forall i :: 0 <= i < |chs| ==> chs[i].id in r
    ensures |chs| > 0 ==> r[chs[|chs| - 1].id] == data[|chs| - 1]
    decreases |chs|
  {
    if |chs| == 0 then map[]
    else
      var n := |chs| - 1;
      IdMap(chs[..n], data[..n])[chs[n].id := data[n]]
  }

  /** The dictionary's keys are exactly the channel ids. */
  lemma {:induction false} IdMapKeys(chs: seq<Channel>, data: seq<int>)
    requires |data| == |chs|
    ensures IdMap(chs, data).Keys == Ids(chs)
    decreases |chs|
  {
    if |chs| > 0 {
      var n := |chs| - 1;
      IdMapKeys(chs[..n], data[..n]);
      assert Ids(chs) == Ids(chs[..n]) + {chs[n].id} by {
        assert forall c :: 0 <= c < n ==> chs[..n][c] == chs[c];
      }
    }
  }

  /** Each id maps to the value of the last channel carrying it. */
  lemma {:induction false} IdMapLastWins(chs: seq<Channel>, data: seq<int>)
    requires |data| == |chs|
    ensures forall c :: 0 <= c < |chs| && LastWithId(chs, c) ==>
      chs[c].id in IdMap(chs, data) && IdMap(chs, data)[chs[c].id] == data[c]
    decreases |chs|
  {
    if |chs| > 0 {
      var n := |chs| - 1;
      IdMapLastWins(chs[..n], data[..n]);
      forall c | 0 <= c < |chs| && LastWithId(chs, c)
        ensures chs[c].id in IdMap(chs, data) && IdMap(chs, data)[chs[c].id] == data[c]
      {
        if c < n {
          assert chs[..n][c] == chs[c];
          assert LastWithId(chs[..n], c);
        }
      }
    }
  }

  /** `DMX_Fixture.getProgrammerData`: each channel id mapped to the buffer
      value at its slot; with duplicate ids the later channel wins. */
  function ProgrammerData(p: Patch, buf: Buffer): (r: map<string, int>)
    ensures forall c :: 0 <= c < |p.channels| && LastWithId(p.channels, c) ==>
      p.channels[c].id in r && r[p.channels[c].id] == GetRange(buf, p.universe, p.address, |p.channels|)[c]
  {
    var data := GetRange(buf, p.universe, p.address, |p.channels|);
    IdMapLastWins(p.channels, data);
    IdMap(p.channels, GetRange(buf, p.universe, p.address, |p.channels|))
  }

  /** The programmer data has one entry per distinct channel id and no other. */
  lemma ProgrammerDataKeys(p: Patch, buf: Buffer)
    ensures ProgrammerData(p, buf).Keys == Ids(p.channels)
  {
    IdMapKeys(p.channels, GetRange(buf, p.universe, p.address, |p.channels|));
  }

  /** The value reported for the last channel with a given id is the one at
      that channel's slot `address + c`. */
  lemma ProgrammerDataAt(p: Patch, buf: Buffer, c: int)
    requires 0 <= c < |p.channels| && LastWithId(p.channels, c)
    ensures p.channels[c].id in ProgrammerData(p, buf)
    ensures ProgrammerData(p, buf)[p.channels[c].id] == Get(buf, p.universe, p.address + c)
  {
  }

  /** `DMX_Fixture.get_channel_by_attribute`: the first channel with that id,
      or `None` when there is none. */
  function ChannelByAttribute(chs: seq<Channel>, attribute: string): (r: Option<Channel>)
    ensures r.None? <==> forall i :: 0 <= i < |chs| ==> chs[i].id != attribute
    ensures r.Some? ==> exists i :: 0 <= i < |chs| && chs[i] == r.value && r.value.id == attribute
                          && forall j :: 0 <= j < i ==> chs[j].id != attribute
    decreases |chs|
  {
    if |chs| == 0 then None
    else if chs[0].id == attribute then Some(chs[0])
    else
      var rest := ChannelByAttribute(chs[1..], attribute);
      assert forall i :: 1 <= i < |chs| ==> chs[i] == chs[1..][i - 1];
      rest
  }

  /** Clearing and then reading the programmer data gives every channel that
      is last with its id back its default value. */
  lemma ClearThenReadGivesDefaults(p: Patch, buf: Buffer, c: int)
    requires 0 <= c < |p.channels| && LastWithId(p.channels, c)
    ensures ProgrammerData(p, Clear(p, buf))[p.channels[c].id] == p.channels[c].default
  {
  }

  /** When every channel carrying `id` holds `value` in the buffer, the
      programmer data reports `value` for `id`. */
  lemma ReadBack(p: Patch, buf: Buffer, id: string, value: int, c: int)
    requires 0 <= c < |p.channels| && p.channels[c].id == id
    requires forall i :: 0 <= i < |p.channels| && p.channels[i].id == id ==> Get(buf, p.universe, p.address + i) == value
    ensures id in ProgrammerData(p, buf) && ProgrammerData(p, buf)[id] == value
  {
    var last := LastFrom(p.channels, c, |p.channels| - 1);
    assert LastWithId(p.channels, last);
    ProgrammerDataAt(p, buf, last);
  }

  /** Setting a value and reading it back returns it under that id, as soon
      as some channel carries the id. */
  method SetThenRead(p: Patch, id: string, value: int, buf: Buffer) returns (data: map<string, int>)
    ensures (exists c :: 0 <= c < |p.channels| && p.channels[c].id == id) ==> id in data && data[id] == value
  {
    var written := SetDmx(p, map[id := value], buf);
    data := ProgrammerData(p, written);
    if c :| 0 <= c < |p.channels| && p.channels[c].id == id {
      ReadBack(p, written, id, value, c);
    }
  }

  /** The last index in `c..d` carrying the same id as channel `c`. */
  function LastFrom(chs: seq<Channel>, c: int, d: int): (l: int)
    requires 0 <= c <= d < |chs|
    ensures c <= l <= d && chs[l].id == chs[c].id
    ensures forall e :: l < e <= d ==> chs[e].id != chs[c].id
    decreases d - c
  {
    if d == c || chs[d].id == chs[c].id then d else LastFrom(chs, c, d - 1)
  }
}
