/**
 * The shutter strobe of a fixture: `updateShutterDimmer`, which stores the
 * shutter and dimmer values on the fixture's lights and decides whether to
 * start the strobe timer, and `runStrobe`, one tick of that timer. A light is
 * reduced to the three custom properties the logic reads and writes; the
 * energy and emission strengths (floating point) are returned as DMX levels.
 */
module FixtureStrobe {
  /** The `shutter_value`, `shutter_dimmer_value` and `shutter_counter`
      properties of a light's data block. */
  datatype Light = Light(shutterValue: int, dimmerValue: int, counter: int)

  /** A light keeps the timer alive while both its values are non-zero. */
  predicate Strobing(l: Light) {
    l.shutterValue != 0 && l.dimmerValue != 0
  }

  // ---------------------------------------------------------------------
  // updateShutterDimmer
  // ---------------------------------------------------------------------

  /** The light loop of `updateShutterDimmer`: each light's previous values are
      remembered and the new ones stored; a positive shutter stops the loop
      after the first light. Returns the lights and the last remembered pair. */
  function StoreLoop(lights: seq<Light>, shutter: int, dimmer: int, last: Light): (r: (seq<Light>, Light))
    ensures |r.0| == |lights|
    ensures forall i :: 0 <= i < |lights| ==> r.0[i].counter == lights[i].counter
    ensures forall i :: 0 <= i < |lights| && (shutter <= 0 || i == 0) ==>
      r.0[i].shutterValue == shutter && r.0[i].dimmerValue == dimmer
    ensures shutter > 0 ==> forall i :: 1 <= i < |lights| ==> r.0[i] == lights[i]
    ensures r.1 == if lights == [] then last else if shutter > 0 then lights[0] else lights[|lights| - 1]
  {
    if lights == [] then ([], last)
    else
      var l := lights[0];
      var stored := l.(shutterValue := shutter, dimmerValue := dimmer);
      if shutter > 0 then ([stored] + lights[1..], l)
      else
        var rest := StoreLoop(lights[1..], shutter, dimmer, l);
        ([stored] + rest.0, rest.1)
  }

  datatype ShutterUpdate = ShutterUpdate(lights: seq<Light>, registerTimer: bool)

  /** `updateShutterDimmer`: every light (only the first one for a positive
      shutter) takes the new values, and the strobe timer is registered when
      the shutter is non-zero and the light looked at last was not strobing
      before, or there are no lights. */
  function UpdateShutterDimmer(lights: seq<Light>, shutter: int, dimmer: int): (r: ShutterUpdate)
    ensures |r.lights| == |lights|
    ensures forall i :: 0 <= i < |lights| ==> r.lights[i].counter == lights[i].counter
    ensures forall i :: 0 <= i < |lights| ==>
      if shutter <= 0 || i == 0 then r.lights[i].shutterValue == shutter && r.lights[i].dimmerValue == dimmer
      else r.lights[i] == lights[i]
    ensures r.registerTimer <==>
      shutter != 0 && (lights == [] || !Strobing(if shutter > 0 then lights[0] else lights[|lights| - 1]))
  {
    var (stored, last) := StoreLoop(lights, shutter, dimmer, Light(0, 0, 0));
    ShutterUpdate(stored, (last.shutterValue == 0 || last.dimmerValue == 0) && shutter != 0)
  }

  // ---------------------------------------------------------------------
  // runStrobe
  // ---------------------------------------------------------------------

  /** The level a light shows on this tick: its dimmer on the first step of
      the period, dark otherwise. */
  function Level(l: Light): int {
    if l.counter == 1 then l.dimmerValue else 0
  }

  /** The counter after a tick: it restarts once it has passed the shutter
      value, then advances. */
  function NextCounter(l: Light): (c: int)
    ensures l.counter >= 0 && l.shutterValue >= 0 ==> 1 <= c <= l.shutterValue + 1
    ensures l.counter > l.shutterValue ==> c == 1
  {
    (if l.counter > l.shutterValue then 0 else l.counter) + 1
  }

  datatype StrobeTick = StrobeTick(lights: seq<Light>, levels: seq<int>, emitterLevel: int, keepRunning: bool)

  /** `runStrobe`: one timer tick over all lights. The emitters take the
      level of the last light; the timer stops as soon as any light has a
      zero shutter or dimmer. */
  method RunStrobe(lights: seq<Light>) returns (r: StrobeTick)
    ensures |r.lights| == |lights| && |r.levels| == |lights|
    ensures forall i :: 0 <= i < |lights| ==>
      && r.lights[i].shutterValue == lights[i].shutterValue
      && r.lights[i].dimmerValue == lights[i].dimmerValue
      && r.lights[i].counter == NextCounter(lights[i])
      && r.levels[i] == Level(lights[i])
    ensures r.emitterLevel == if lights == [] then 0 else Level(lights[|lights| - 1])
    ensures r.keepRunning <==> forall i :: 0 <= i < |lights| ==> Strobing(lights[i])
  {
    var exitTimer := false;
    var dimmerValue := 0;
    var ticked: seq<Light> := [];
    var levels: seq<int> := [];
    var k := 0;
    while k < |lights|
      invariant 0 <= k <= |lights|
      invariant |ticked| == k && |levels| == k
      invariant forall i :: 0 <= i < k ==>
        ticked[i] == lights[i].(counter := NextCounter(lights[i])) && levels[i] == Level(lights[i])
      invariant dimmerValue == if k == 0 then 0 else Level(lights[k - 1])
      invariant exitTimer <==> exists i :: 0 <= i < k && !Strobing(lights[i])
    {
      var l := lights[k];
      if l.shutterValue == 0 {
        exitTimer := true;
      }
      if l.dimmerValue == 0 {
        exitTimer := true;
      }
      dimmerValue := 0;
      if l.counter == 1 {
        dimmerValue := l.dimmerValue;
      }
      var counter := l.counter;
      if counter > l.shutterValue {
        counter := 0;
      }
      ticked := ticked + [l.(counter := counter + 1)];
      levels := levels + [dimmerValue];
      k := k + 1;
    }
    r := StrobeTick(ticked, levels, dimmerValue, !exitTimer);
  }

  // ---------------------------------------------------------------------
  // The strobe period
  // ---------------------------------------------------------------------

  /** A light after `n` ticks. */
  function Ticks(l: Light, n: nat): Light
    decreases n
  {
    if n == 0 then l else Ticks(l.(counter := NextCounter(l)), n - 1)
  }

  /** Ticks compose. */
  lemma {:induction false} TicksAdd(l: Light, a: nat, b: nat)
    ensures Ticks(l, a + b) == Ticks(Ticks(l, a), b)
    decreases a
  {
    if a > 0 {
      TicksAdd(l.(counter := NextCounter(l)), a - 1, b);
    }
  }

  /** Below the shutter value the counter simply advances: `n` ticks from
      counter `c` reach `c + n` while that stays within the period
      `shutter + 1`. */
  lemma {:induction false} TicksAdvance(l: Light, n: nat)
    requires 1 <= l.counter && l.counter + n <= l.shutterValue + 1
    ensures Ticks(l, n) == l.(counter := l.counter + n)
    decreases n
  {
    if n > 0 {
      TicksAdvance(l.(counter := NextCounter(l)), n - 1);
    }
  }

  /** The strobe is periodic: a light whose counter is inside the period is
      back to the same state after `shutter + 1` ticks. */
  lemma TicksPeriodic(l: Light)
    requires l.shutterValue >= 0 && 1 <= l.counter <= l.shutterValue + 1
    ensures Ticks(l, l.shutterValue + 1) == l
  {
    var p := l.shutterValue + 1;
    var top := l.(counter := p);
    TicksAdvance(l, p - l.counter);
    TicksAdd(l, p - l.counter, 1);
    assert Ticks(top, 1) == l.(counter := 1);
    TicksAdvance(l.(counter := 1), l.counter - 1);
    TicksAdd(l, p - l.counter + 1, l.counter - 1);
  }

  /** Within one period a strobing light flashes on exactly one tick: the
      one that brings its counter back to 1. */
  lemma FlashesOncePerPeriod(l: Light, n: nat)
    requires l.shutterValue >= 0 && 1 <= l.counter <= l.shutterValue + 1 && l.dimmerValue != 0
    requires n <= l.shutterValue
    ensures Level(Ticks(l, n)) == (if n == (if l.counter == 1 then 0 else l.shutterValue + 2 - l.counter) then l.dimmerValue else 0)
  {
    var p := l.shutterValue + 1;
    if n <= p - l.counter {
      TicksAdvance(l, n);
    } else {
      var top := l.(counter := p);
      TicksAdvance(l, p - l.counter);
      TicksAdd(l, p - l.counter, 1);
      assert Ticks(top, 1) == l.(counter := 1);
      var rest := n - (p - l.counter + 1);
      TicksAdvance(l.(counter := 1), rest);
      TicksAdd(l, p - l.counter + 1, rest);
    }
  }

  /** A counter that starts anywhere non-negative is inside the period after
      one tick, however the shutter value changed in between. */
  lemma CounterEntersPeriod(l: Light)
    requires l.counter >= 0 && l.shutterValue >= 0
    ensures var t := Ticks(l, 1); 1 <= t.counter <= t.shutterValue + 1
  {
  }

  // ---------------------------------------------------------------------
  // updateShutterDimmer and runStrobe together
  // ---------------------------------------------------------------------

  /** Closing the shutter on a fixture with lights never starts the timer and
      stops a running one at its next tick. */
  lemma ShutterZeroStopsStrobe(lights: seq<Light>, dimmer: int)
    requires lights != []
    ensures !UpdateShutterDimmer(lights, 0, dimmer).registerTimer
    ensures exists i :: 0 <= i < |lights| && !Strobing(UpdateShutterDimmer(lights, 0, dimmer).lights[i])
  {
    assert !Strobing(UpdateShutterDimmer(lights, 0, dimmer).lights[0]);
  }

  /** The timer is registered only on a transition: a fixture whose lights
      all strobe already does not register a second timer. */
  lemma NoSecondTimer(lights: seq<Light>, shutter: int, dimmer: int)
    requires lights != []
    requires forall i :: 0 <= i < |lights| ==> Strobing(lights[i])
    ensures !UpdateShutterDimmer(lights, shutter, dimmer).registerTimer
  {
  }

  /** Opening the shutter on a fixture whose lights were all dark starts the
      timer, and the first light, which is always written, keeps it alive. A
      negative shutter (which a DMX value never is) writes every light. How
      the other lights fare for a positive shutter is
      `OpeningShutterDropsLaterLights`. */
  lemma OpeningShutterStartsStrobe(lights: seq<Light>, shutter: int, dimmer: int)
    requires shutter != 0 && dimmer != 0
    requires forall i :: 0 <= i < |lights| ==> !Strobing(lights[i])
    ensures UpdateShutterDimmer(lights, shutter, dimmer).registerTimer
    ensures lights != [] ==> Strobing(UpdateShutterDimmer(lights, shutter, dimmer).lights[0])
    ensures shutter < 0 ==> forall i :: 0 <= i < |lights| ==> Strobing(UpdateShutterDimmer(lights, shutter, dimmer).lights[i])
  {
  }

  // ---------------------------------------------------------------------
  // The `break` on a positive shutter, as written and as intended
  // ---------------------------------------------------------------------

  /** For the shutter values a DMX channel carries, a light after the first
      that was never given a shutter value keeps shutter value 0. */
  lemma LaterLightsStayDark(lights: seq<Light>, shutter: int, dimmer: int)
    requires 0 <= shutter
    requires forall i :: 1 <= i < |lights| ==> lights[i].shutterValue == 0
    ensures forall i :: 1 <= i < |UpdateShutterDimmer(lights, shutter, dimmer).lights| ==>
      UpdateShutterDimmer(lights, shutter, dimmer).lights[i].shutterValue == 0
  {
  }

  /** As written, a positive shutter stores the new values on the first light
      only. On a fixture whose second light is dark the timer is registered,
      but that light is not strobing, so the next `runStrobe` tick stops the
      timer; and since the first light now strobes, rendering the same values
      again never registers it anew. */
  lemma OpeningShutterDropsLaterLights(lights: seq<Light>, shutter: int, dimmer: int)
    requires |lights| >= 2 && shutter > 0 && dimmer != 0
    requires !Strobing(lights[0]) && lights[1].shutterValue == 0
    ensures var u := UpdateShutterDimmer(lights, shutter, dimmer);
      && u.registerTimer
      && u.lights[1] == lights[1]
      && !Strobing(u.lights[1])
      && !UpdateShutterDimmer(u.lights, shutter, dimmer).registerTimer
  {
  }

  /** The same as-written sequence, run: open the shutter, then one timer
      tick. The timer is registered and at once stopped again. */
  method OpenThenTickAsWritten(lights: seq<Light>, shutter: int, dimmer: int)
    returns (registered: bool, keepRunning: bool)
    requires |lights| >= 2 && shutter > 0 && dimmer != 0
    requires !Strobing(lights[0]) && lights[1].shutterValue == 0
    ensures registered && !keepRunning
  {
    var u := UpdateShutterDimmer(lights, shutter, dimmer);
    OpeningShutterDropsLaterLights(lights, shutter, dimmer);
    var tick := RunStrobe(u.lights);
    registered, keepRunning := u.registerTimer, tick.keepRunning;
  }

  /** Every light with the new shutter and dimmer values. */
  function StoreAll(lights: seq<Light>, shutter: int, dimmer: int): (r: seq<Light>)
    ensures |r| == |lights|
    ensures forall i :: 0 <= i < |lights| ==>
      r[i] == lights[i].(shutterValue := shutter, dimmerValue := dimmer)
  {
    if lights == [] then []
    else [lights[0].(shutterValue := shutter, dimmerValue := dimmer)] + StoreAll(lights[1..], shutter, dimmer)
  }

  /** `updateShutterDimmer` as evidently intended: the `break` skips only the
      energy work the timer redoes, so every light takes the new values, and
      the light looked at last is the last one. */
  function UpdateShutterDimmerIntended(lights: seq<Light>, shutter: int, dimmer: int): (r: ShutterUpdate)
    ensures |r.lights| == |lights|
    ensures forall i :: 0 <= i < |lights| ==>
      r.lights[i].shutterValue == shutter && r.lights[i].dimmerValue == dimmer
      && r.lights[i].counter == lights[i].counter
    ensures r.registerTimer <==> shutter != 0 && (lights == [] || !Strobing(lights[|lights| - 1]))
  {
    var last := if lights == [] then Light(0, 0, 0) else lights[|lights| - 1];
    ShutterUpdate(StoreAll(lights, shutter, dimmer), (last.shutterValue == 0 || last.dimmerValue == 0) && shutter != 0)
  }

  /** The intended update differs from the written one only for a positive
      shutter on a fixture with more than one light. */
  lemma IntendedAgreesWithWritten(lights: seq<Light>, shutter: int, dimmer: int)
    requires shutter <= 0 || |lights| <= 1
    ensures UpdateShutterDimmerIntended(lights, shutter, dimmer) == UpdateShutterDimmer(lights, shutter, dimmer)
  {
  }

  /** With the intended update, opening the shutter (non-zero shutter and
      dimmer) leaves every light strobing, so the next tick keeps the timer
      running; it is registered exactly when the last light was dark. */
  method OpenThenTick(lights: seq<Light>, shutter: int, dimmer: int)
    returns (registered: bool, keepRunning: bool)
    requires shutter != 0 && dimmer != 0
    ensures keepRunning
    ensures registered <==> lights == [] || !Strobing(lights[|lights| - 1])
  {
    var u := UpdateShutterDimmerIntended(lights, shutter, dimmer);
    var tick := RunStrobe(u.lights);
    registered, keepRunning := u.registerTimer, tick.keepRunning;
  }
}
