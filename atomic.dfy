/**
 atomic.js: the configurable library version. `new Atomic(options)` merges
 the caller's options into the module-level `defaultOptions` object, records
 the canvas size in it, spawns `numAtoms` atoms, and then runs `_draw` once
 per frame.

 `_draw` runs the five passes in order: clear the lists, pointer effect,
 collisions, links, integration. The pointer loop clears `_clicked` after
 each atom, so only atom 0 ever sees a click. The overspeed threshold is
 `vmax` itself.

 The options object is a map from key to `Value`, held by an `OptionStore`
 object. Every `Atomic` shares the one store and mutates it, exactly as the
 source shares `defaultOptions`.
 */
module Atomic {
  import opened Circle
  import opened Passes

  // ---------------------------------------------------------------- options

  /** An option name: the ones the library reads, or any other name. */
  datatype Key =
    | NumAtoms | AtomColor | ArmColor | R | Vmax | Armlen | Mouser | Mousev
    | Clickr | Amax | Jerk | Xmax | Ymax | Other(name: string)

  /** An option value: a number, an atom count, or an `[r, g, b, a]` colour. */
  datatype Value = Num(n: real) | Count(c: nat) | Color(rgba: Rgba)

  /** `defaultOptions`, as the module defines it. */
  function DefaultOptions(): map<Key, Value> {
    map[
      NumAtoms := Count(500),
      AtomColor := Color(Rgba(155.0, 0.0, 255.0, 0.5)),
      ArmColor := Color(Rgba(200.0, 0.0, 155.0, 0.3)),
      R := Num(2.0),
      Vmax := Num(3.0),
      Armlen := Num(100.0),
      Mouser := Num(100.0),
      Mousev := Num(3.0),
      Clickr := Num(300.0),
      Amax := Num(3.0),
      Jerk := Num(1.0)
    ]
  }

  /** Every option has a default except the canvas size, and every numeric
      default, the atom count included, is positive. */
  lemma DefaultsComplete()
    ensures var m := DefaultOptions();
      && m.Keys == {NumAtoms, AtomColor, ArmColor, R, Vmax, Armlen, Mouser, Mousev, Clickr, Amax, Jerk}
      && (forall k :: k in m && m[k].Num? ==> 0.0 < m[k].n)
      && m[NumAtoms].Count? && 0 < m[NumAtoms].c
  {
  }

  /** The options after `this._options[k] = options[k]` for every key `k`
      of `options`: a supplied key holds the supplied value, every other key
      keeps what it had, and nothing else appears. */
  function Merged(current: map<Key, Value>, options: map<Key, Value>): (m: map<Key, Value>)
    ensures m.Keys == current.Keys + options.Keys
    ensures forall k :: k in options ==> m[k] == options[k]
    ensures forall k :: k in current && k !in options ==> m[k] == current[k]
  {
    current + options
  }

  /** The options a constructor leaves: the merge (skipped when no options
      object is given), then the canvas width and height as `xmax`/`ymax`. */
  function Configured(current: map<Key, Value>, options: Option<map<Key, Value>>, width: real, height: real): (m: map<Key, Value>)
    ensures m.Keys == current.Keys + (if options.Some? then options.value.Keys else {}) + {Xmax, Ymax}
    ensures m[Xmax] == Num(width) && m[Ymax] == Num(height)
    ensures forall k :: k != Xmax && k != Ymax && options.Some? && k in options.value ==> m[k] == options.value[k]
    ensures forall k :: k != Xmax && k != Ymax && k in current && (options.None? || k !in options.value) ==> m[k] == current[k]
  {
    var merged := if options.Some? then Merged(current, options.value) else current;
    merged[Xmax := Num(width)][Ymax := Num(height)]
  }

  /** A fresh library's options: every supplied key except `xmax`/`ymax`
      holds the supplied value, every other default keeps its default, and
      the canvas size always wins over a supplied `xmax`/`ymax`. */
  lemma FirstInstanceOptions(options: map<Key, Value>, width: real, height: real)
    ensures var m := Configured(DefaultOptions(), Some(options), width, height);
      && (forall k :: k in options && k != Xmax && k != Ymax ==> m[k] == options[k])
      && (forall k :: k in DefaultOptions() && k !in options ==> m[k] == DefaultOptions()[k])
      && m[Xmax] == Num(width) && m[Ymax] == Num(height)
  {
    var m := Configured(DefaultOptions(), Some(options), width, height);
    forall k | k in DefaultOptions() && k !in options
      ensures m[k] == DefaultOptions()[k]
    {
      assert k != Xmax && k != Ymax;
    }
  }

  /** Because the defaults object is shared, a second library sees the first
      one's options: a key the first caller supplied and the second did not
      keeps the first caller's value, not its default. */
  lemma SecondInstanceInherits(first: map<Key, Value>, second: map<Key, Value>, w1: real, h1: real, w2: real, h2: real, k: Key)
    requires k in first && k !in second && k != Xmax && k != Ymax
    ensures Configured(Configured(DefaultOptions(), Some(first), w1, h1), Some(second), w2, h2)[k] == first[k]
  {
    var m1 := Configured(DefaultOptions(), Some(first), w1, h1);
    assert m1[k] == first[k];
  }

  /** The settings the tick reads from the options: the atom count and the
      constants, each under its key with the expected kind of value. */
  datatype Settings = Settings(numAtoms: nat, prm: Params)

  function NumAt(m: map<Key, Value>, k: Key): Option<real> {
    if k in m && m[k].Num? then Some(m[k].n) else None
  }

  function ColorAt(m: map<Key, Value>, k: Key): Option<Rgba> {
    if k in m && m[k].Color? then Some(m[k].rgba) else None
  }

  /** The settings, or `None` when a key is missing or holds the wrong kind
      of value. */
  function SettingsOf(m: map<Key, Value>): Option<Settings> {
    if NumAtoms in m && m[NumAtoms].Count?
      && NumAt(m, R).Some? && NumAt(m, Vmax).Some? && NumAt(m, Armlen).Some?
      && NumAt(m, Mouser).Some? && NumAt(m, Mousev).Some? && NumAt(m, Clickr).Some?
      && NumAt(m, Amax).Some? && NumAt(m, Jerk).Some?
      && NumAt(m, Xmax).Some? && NumAt(m, Ymax).Some?
      && ColorAt(m, AtomColor).Some? && ColorAt(m, ArmColor).Some?
    then
      Some(Settings(m[NumAtoms].c, Params(
        NumAt(m, R).value, NumAt(m, Vmax).value, NumAt(m, Armlen).value,
        NumAt(m, Mouser).value, NumAt(m, Mousev).value, NumAt(m, Clickr).value,
        NumAt(m, Amax).value, NumAt(m, Jerk).value,
        NumAt(m, Xmax).value, NumAt(m, Ymax).value,
        ColorAt(m, AtomColor).value, ColorAt(m, ArmColor).value)))
    else
      None
  }

  /** Settings that could be read, for `n` atoms, with usable constants. */
  predicate SettingsFit(s: Option<Settings>, n: nat) {
    s.Some? && s.value.numAtoms == n && ParamsOk(s.value.prm)
  }

  /** The default numbers and colours, read back from `defaultOptions`. */
  lemma DefaultNumbers()
    ensures var m := DefaultOptions();
      && NumAt(m, R) == Some(2.0) && NumAt(m, Vmax) == Some(3.0) && NumAt(m, Armlen) == Some(100.0)
      && NumAt(m, Mouser) == Some(100.0) && NumAt(m, Mousev) == Some(3.0) && NumAt(m, Clickr) == Some(300.0)
      && NumAt(m, Amax) == Some(3.0) && NumAt(m, Jerk) == Some(1.0)
      && ColorAt(m, AtomColor) == Some(Rgba(155.0, 0.0, 255.0, 0.5))
      && ColorAt(m, ArmColor) == Some(Rgba(200.0, 0.0, 155.0, 0.3))
      && m[NumAtoms] == Count(500) && Xmax !in m && Ymax !in m
  {
  }

  /** The settings of any options holding the default values, with the
      given `xmax` and `ymax`. */
  lemma SettingsFromDefaults(m: map<Key, Value>, width: real, height: real)
    requires NumAtoms in m && m[NumAtoms] == Count(500)
    requires NumAt(m, R) == Some(2.0) && NumAt(m, Vmax) == Some(3.0) && NumAt(m, Armlen) == Some(100.0)
    requires NumAt(m, Mouser) == Some(100.0) && NumAt(m, Mousev) == Some(3.0) && NumAt(m, Clickr) == Some(300.0)
    requires NumAt(m, Amax) == Some(3.0) && NumAt(m, Jerk) == Some(1.0)
    requires NumAt(m, Xmax) == Some(width) && NumAt(m, Ymax) == Some(height)
    requires ColorAt(m, AtomColor) == Some(Rgba(155.0, 0.0, 255.0, 0.5))
    requires ColorAt(m, ArmColor) == Some(Rgba(200.0, 0.0, 155.0, 0.3))
    ensures SettingsOf(m) == Some(Settings(500,
      Params(2.0, 3.0, 100.0, 100.0, 3.0, 300.0, 3.0, 1.0, width, height,
        Rgba(155.0, 0.0, 255.0, 0.5), Rgba(200.0, 0.0, 155.0, 0.3))))
  {
  }

  /** Recording the canvas size changes only `xmax` and `ymax`. */
  lemma SizedSettings(d: map<Key, Value>, width: real, height: real)
    requires NumAtoms in d && d[NumAtoms] == Count(500)
    requires NumAt(d, R) == Some(2.0) && NumAt(d, Vmax) == Some(3.0) && NumAt(d, Armlen) == Some(100.0)
    requires NumAt(d, Mouser) == Some(100.0) && NumAt(d, Mousev) == Some(3.0) && NumAt(d, Clickr) == Some(300.0)
    requires NumAt(d, Amax) == Some(3.0) && NumAt(d, Jerk) == Some(1.0)
    requires ColorAt(d, AtomColor) == Some(Rgba(155.0, 0.0, 255.0, 0.5))
    requires ColorAt(d, ArmColor) == Some(Rgba(200.0, 0.0, 155.0, 0.3))
    ensures SettingsOf(d[Xmax := Num(width)][Ymax := Num(height)]) == Some(Settings(500,
      Params(2.0, 3.0, 100.0, 100.0, 3.0, 300.0, 3.0, 1.0, width, height,
        Rgba(155.0, 0.0, 255.0, 0.5), Rgba(200.0, 0.0, 155.0, 0.3))))
  {
    SettingsFromDefaults(d[Xmax := Num(width)][Ymax := Num(height)], width, height);
  }

  /** With the defaults and a canvas size, the settings are the defaults'
      constants: 500 atoms of radius 2, `vmax` 3, `armlen` 100, and so on. */
  lemma DefaultSettings(width: real, height: real)
    ensures var s := SettingsOf(Configured(DefaultOptions(), None, width, height));
      && s.Some? && s.value.numAtoms == 500
      && s.value.prm == Params(2.0, 3.0, 100.0, 100.0, 3.0, 300.0, 3.0, 1.0, width, height,
           Rgba(155.0, 0.0, 255.0, 0.5), Rgba(200.0, 0.0, 155.0, 0.3))
      && ParamsOk(s.value.prm)
  {
    DefaultNumbers();
    SizedSettings(DefaultOptions(), width, height);
    assert Configured(DefaultOptions(), None, width, height) == DefaultOptions()[Xmax := Num(width)][Ymax := Num(height)];
  }

  /** A key order that lists exactly the keys of `options` visits every one
      of them. */
  lemma KeysListed(options: map<Key, Value>, keys: seq<Key>)
    requires forall k :: k in keys <==> k in options
    ensures (set t | 0 <= t < |keys| :: keys[t]) == options.Keys
  {
    forall k | k in options
      ensures k in (set t | 0 <= t < |keys| :: keys[t])
    {
      var t :| 0 <= t < |keys| && keys[t] == k;
    }
  }

  /** The `defaultOptions` object, shared by every library instance. */
  class OptionStore {
    var entries: map<Key, Value>

    constructor()
      ensures entries == DefaultOptions()
    {
      entries := DefaultOptions();
    }

    /** `Object.keys(options).forEach(k => this._options[k] = options[k])`;
        `keys` is the enumeration order of `options`' own keys. */
    method Merge(options: map<Key, Value>, keys: seq<Key>)
      requires forall k :: k in keys <==> k in options
      modifies this
      ensures entries == Merged(old(entries), options)
    {
      for i := 0 to |keys|
        invariant entries.Keys == old(entries).Keys + (set t | 0 <= t < i :: keys[t])
        invariant forall k :: k in entries && k in keys[..i] ==> entries[k] == options[k]
        invariant forall k :: k in old(entries) && k !in keys[..i] ==> entries[k] == old(entries)[k]
      {
        assert keys[..i + 1] == keys[..i] + [keys[i]];
        entries := entries[keys[i] := options[keys[i]]];
      }
      assert keys[..|keys|] == keys;
      KeysListed(options, keys);
    }

    /** The option writes of the constructor: the merge when an options
        object is given, then `xmax` and `ymax`. */
    method Configure(options: Option<map<Key, Value>>, keys: seq<Key>, width: real, height: real)
      requires options.Some? ==> forall k :: k in keys <==> k in options.value
      modifies this
      ensures entries == Configured(old(entries), options, width, height)
    {
      if options.Some? {
        Merge(options.value, keys);
      }
      entries := entries[Xmax := Num(width)];
      entries := entries[Ymax := Num(height)];
    }
  }

  // ------------------------------------------------------------ the library

  /** The pointer loop of `_draw`: atom `t` runs `mouseEffect` with the click
      flag as it stands when its turn comes, which is the original flag for
      atom 0 and false for every later atom. */
  function Pointed(mth: Math, prm: Params, ps: seq<Particle>, mx: real, my: real, moving: bool, clicked: bool): (qs: seq<Particle>)
    ensures |qs| == |ps|
    ensures forall t :: 0 <= t < |ps| ==> qs[t] == MouseEffect(mth, prm, ps[t], mx, my, moving, clicked && t == 0)
  {
    seq(|ps|, t requires 0 <= t < |ps| => MouseEffect(mth, prm, ps[t], mx, my, moving, clicked && t == 0))
  }

  /** Only atom 0 can enter the burst state from a click: every other atom
      keeps its burst state, and atom 0 bursts exactly when clicked within
      `clickr`. No atom moves. */
  lemma OnlyFirstBursts(mth: Math, prm: Params, ps: seq<Particle>, mx: real, my: real, moving: bool, clicked: bool)
    ensures var qs := Pointed(mth, prm, ps, mx, my, moving, clicked);
      && (forall t :: 0 < t < |ps| ==> qs[t].isAcc == ps[t].isAcc && qs[t].a == ps[t].a)
      && (forall t :: 0 <= t < |ps| ==> qs[t].x == ps[t].x && qs[t].y == ps[t].y)
      && (0 < |ps| && clicked && PointerDistance(mth, ps[0], mx, my) <= prm.clickr ==> qs[0].isAcc && qs[0].a == prm.amax)
  {
    var qs := Pointed(mth, prm, ps, mx, my, moving, clicked);
    forall t | 0 < t < |ps|
      ensures qs[t].isAcc == ps[t].isAcc && qs[t].a == ps[t].a
    {
      assert qs[t] == MouseEffect(mth, prm, ps[t], mx, my, moving, false);
    }
  }

  /** The click reaches atom 0 and no other: every later atom comes out of
      the pointer loop as it would without a click, and without a click the
      loop is the same for every atom. */
  lemma ClickReachesAtomZeroOnly(mth: Math, prm: Params, ps: seq<Particle>, mx: real, my: real, moving: bool, clicked: bool)
    ensures var qs := Pointed(mth, prm, ps, mx, my, moving, clicked);
      var us := Pointed(mth, prm, ps, mx, my, moving, false);
      forall t :: 0 < t < |ps| ==> qs[t] == us[t]
    ensures !clicked ==> (Pointed(mth, prm, ps, mx, my, moving, clicked) ==
      seq(|ps|, t requires 0 <= t < |ps| => MouseEffect(mth, prm, ps[t], mx, my, moving, false)))
  {
  }

  /** The pointer loop keeps every atom's burst invariant. */
  lemma PointedKeepsBurstOk(mth: Math, prm: Params, ps: seq<Particle>, mx: real, my: real, moving: bool, clicked: bool)
    requires AllBurstOk(ps, prm.amax)
    ensures AllBurstOk(Pointed(mth, prm, ps, mx, my, moving, clicked), prm.amax)
  {
    var qs := Pointed(mth, prm, ps, mx, my, moving, clicked);
    forall t | 0 <= t < |qs|
      ensures BurstOk(qs[t], prm.amax)
    {
      assert BurstOk(ps[t], prm.amax);
    }
  }

  /** One `Atomic` instance. The canvas, the listeners and the frame loop are
      outside the model: the pointer fields are set by the caller, and each
      call of `Draw` is one frame, whose drawing is left in `frame`. */
  class Atomic {
    const mth: Math
    const store: OptionStore
    const atoms: array<Particle>
    const hits: array<seq<nat>>
    const arms: array<seq<nat>>
    const dt: real
    var moving: bool
    var clicked: bool
    var mx: real
    var my: real
    var frame: seq<DrawCmd>

    /** The options describe as many atoms as there are, with usable
        constants, and every atom keeps the burst invariant. */
    predicate Valid()
      reads this, store, atoms
    {
      && hits != arms && atoms.Length == hits.Length == arms.Length
      && dt == 0.1
      && SettingsFit(SettingsOf(store.entries), atoms.Length)
      && AllBurstOk(atoms[..], SettingsOf(store.entries).value.prm.amax)
    }

    /** The constants `_draw` reads from the options this frame. */
    function Prm(): Params
      reads this, store
      requires SettingsOf(store.entries).Some?
    {
      SettingsOf(store.entries).value.prm
    }

    /** `new Atomic(options)` on a `width` by `height` canvas, with `init`
        the sampled position and velocity of each atom. */
    constructor(mth: Math, store: OptionStore, options: Option<map<Key, Value>>, keys: seq<Key>,
                width: real, height: real, init: seq<(real, real, real, real)>)
      requires options.Some? ==> forall k :: k in keys <==> k in options.value
      requires SettingsFit(SettingsOf(Configured(store.entries, options, width, height)), |init|)
      modifies store
      ensures store.entries == Configured(old(store.entries), options, width, height)
      ensures this.mth == mth && this.store == store
      ensures fresh(atoms) && fresh(hits) && fresh(arms)
      ensures atoms[..] == Spawned(init)
      ensures forall t :: 0 <= t < hits.Length ==> hits[t] == []
      ensures forall t :: 0 <= t < arms.Length ==> arms[t] == []
      ensures !moving && !clicked && mx == 0.0 && my == 0.0 && frame == []
      ensures Valid()
    {
      store.Configure(options, keys, width, height);
      var a := SpawnAll(init);
      var h, l := EmptyLists(|init|);
      this.mth := mth;
      this.store := store;
      atoms := a;
      hits := h;
      arms := l;
      dt := 0.1;
      moving := false;
      clicked := false;
      mx := 0.0;
      my := 0.0;
      frame := [];
    }

    /** The pointer loop of `_draw`: `mouseEffect` for every atom, with
        `_clicked` cleared after each one. */
    method PointerPass(prm: Params)
      modifies atoms, this`clicked
      ensures atoms[..] == Pointed(mth, prm, old(atoms[..]), mx, my, moving, old(clicked))
      ensures clicked == (old(clicked) && atoms.Length == 0)
    {
      for i := 0 to atoms.Length
        invariant clicked == (old(clicked) && i == 0)
        invariant forall t :: 0 <= t < i ==> atoms[t] == MouseEffect(mth, prm, old(atoms[t]), mx, my, moving, old(clicked) && t == 0)
        invariant forall t :: i <= t < atoms.Length ==> atoms[t] == old(atoms[t])
      {
        atoms[i] := MouseEffect(mth, prm, atoms[i], mx, my, moving, clicked);
        clicked := false;
      }
    }

    /** `_draw`: one frame. The atoms end as the collision, link and
        integration passes leave the pointer loop's result, with `vmax` as
        the overspeed threshold; the frame is the links, then the discs. A
        pending click is consumed whenever there is at least one atom, and
        the burst invariant survives. */
    method Draw()
      requires Valid()
      modifies atoms, hits, arms, this`clicked, this`frame
      ensures Valid()
      ensures clicked == (old(clicked) && atoms.Length == 0)
      ensures var f := AfterPointer(mth, Prm(), Pointed(mth, Prm(), old(atoms[..]), mx, my, moving, old(clicked)), dt, Prm().vmax);
        atoms[..] == f.atoms && frame == f.cmds && hits[..] == f.hits && arms[..] == f.arms
    {
      var prm := Prm();
      ghost var pointed := Pointed(mth, prm, atoms[..], mx, my, moving, clicked);
      PointedKeepsBurstOk(mth, prm, atoms[..], mx, my, moving, clicked);
      ClearTransients(hits, arms);
      PointerPass(prm);
      frame := AfterPointerPasses(mth, prm, atoms, hits, arms, dt, prm.vmax);
      AfterPointerKeepsBurstOk(mth, prm, pointed, dt, prm.vmax);
    }
  }
}
