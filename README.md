# Atomic: the per-tick particle step, modelled and proved in Dafny

Atomic draws a field of small atoms on a canvas. Atoms drift, bounce off the
walls and collide with each other. Atoms close together are joined by links
that fade with distance. Moving the pointer repels nearby atoms, and a click
makes atoms "burst": they accelerate along their heading, and the
acceleration then decays.

The repository holds two versions of the same step:
- `atomic.js` is the library version, configured by an options object;
- `main.js` is the earlier script version, built on globals.

Each frame, both run five passes over the atom array in a fixed order:
1. clear every atom's `_hits` and `_arms` lists;
2. apply the pointer effect (`mouseEffect`);
3. run the collision pass (`collisions`), de-duplicated through `_hits`;
4. run the link pass (`renderArms`/`arm`), de-duplicated through `_arms`;
5. integrate (`render`): the burst state machine, the overspeed check, the
   move, and the reflection off each wall.

The project has four modules, one per file:
- `circle.dfy` (module `Circle`) models one atom:
  - the `Particle` record and its pure queries (`distance`, `vmag`,
    `intersection`, the segment that `arm` computes, the link alpha);
  - the two per-atom updates, `mouseEffect` and the physics half of
    `render`, as functions.
- `passes.dfy` (module `Passes`) models the all-atoms passes that both
  files share. They are imperative methods over an `array<Particle>` and an
  `array<seq<nat>>` for each of `_hits` and `_arms` (lists of partner
  indices). Each method is proved against a definition on sequences:
  - the collision pass equals the left fold of `Resolve` over `NearPairs`,
    the touching pairs `(i, j)` with `i < j`, in lexicographic order;
  - the link pass draws `LinkCmds` of the pairs in range, in the same order;
  - the integration pass applies `Integrate` to every atom.
- `atomic.dfy` (module `Atomic`) models `atomic.js`:
  - the shared `defaultOptions` object, as the class `OptionStore`, with its
    key-by-key merge;
  - the `Atomic` class, with its constructor and its `_draw` frame (`Draw`).
- `main_script.dfy` (module `MainScript`) models `main.js`:
  - the globals, as the class `Globals`, and its `draw` frame;
  - the global `a` and its decay.

The two `Draw` methods differ in the four places where the scripts differ:
- **Pointer-activity test.** `atomic.js` repels only while the pointer is
  moving. `main.js` always repels.
- **Clearing the click flag.** `atomic.js` clears `_clicked` inside the
  pointer loop, so only atom 0 can burst from a click. `main.js` clears
  `clicked` after the frame, so every atom within `clickr` bursts.
- **Overspeed threshold.** It is `vmax` in `atomic.js` and `2 * vmax` in
  `main.js`.
- **The global `a`.** `main.js` decays it every frame, but it starts at 0,
  so it stays 0.

The floating-point functions `Math.sqrt`, `Math.atan2`, `Math.cos` and
`Math.sin` are passed in as a `Math` value. The geometric lemmas assume only
the laws in `Lawful`:
- `sqrt` of a non-negative number is non-negative and squares back;
- `cos` and `sin` form a unit vector;
- `atan2` gives the heading of a non-zero vector.

The control-logic results (de-duplication, click handling, the burst state
machine, reflection) need none of these laws.

Two behaviours of the code are easy to misread:
- **Click in `atomic.js`.** Only atom 0 can react to a click, because
  `_clicked` is cleared after the first atom (`Atomic.OnlyFirstBursts`,
  `Atomic.ClickReachesAtomZeroOnly`).
- **Burst decay.** `a` does not stop at 0: it keeps falling by `dt * jerk`
  until it is no longer above `-amax`, and only then resets to 0
  (`Circle.BurstTransitions`).

## Model

| member | source | states |
|---|---|---|
| Circle.Spawn | atomic.js:18-28 | A new atom has the given position and velocity, starts cruising with `a = 0`, and so keeps the burst invariant for any non-negative `amax`. |
| Circle.DistanceLaws | atomic.js:30-35 | `distance` is non-negative and symmetric, and it is 0 exactly when the two centres coincide. |
| Circle.DistanceSymmetric | atomic.js:30-35 | `distance` gives the same value whichever atom of a pair asks. |
| Circle.VmagLaws | atomic.js:37-39 | `vmag` is non-negative, squares to `xdot² + ydot²`, and is 0 exactly when the atom is at rest. |
| Circle.NormNonNegative | atomic.js:30-39 | Distances and speeds are never negative. |
| Circle.Intersection | atomic.js:41-52 | `intersection` returns a contact exactly when the centres are at most `2r` apart, and the contact carries the partner's velocity. |
| Circle.ContactOnRim | atomic.js:44-48 | The contact offset has length `r`: it lies on this atom's rim. |
| Circle.ContactTowardPartner | atomic.js:44-48 | For atoms at different positions, the contact offset points from this centre towards the partner's: it is `r / distance` times the offset between the centres. |
| Circle.ArmSegment | atomic.js:54-70 | `arm` yields a segment exactly when the centres are at most `armlen` apart, and that segment is the rim-to-rim one. |
| Circle.RimsOnRims | atomic.js:58-67 | A link starts on this atom's rim and ends on the partner's rim. |
| Circle.AlphaEnds | atomic.js:174 | The link alpha is `armColor[3]` at distance 0 and 0 at `armlen`, and stays between those values in between. |
| Circle.AlphaFades | atomic.js:174 | The link alpha never grows with distance, and strictly falls when the colour's alpha is positive. |
| Circle.MouseEffect | atomic.js:109-124 | The position never changes. The velocity changes only when the pointer is moving and within `mouser`. The atom enters the burst state at `amax` exactly when clicked within `clickr`; otherwise `a` and `isAcc` are kept. |
| Circle.RepelledSpeed | atomic.js:113-119 | A repelled atom moves at speed `abs(mousev)`. |
| Circle.RepelledAway | atomic.js:113-119 | A repelled atom's velocity is `-mousev / d` times its offset to the pointer, so it moves straight away from the pointer. |
| Circle.ReflectAxisFlipsOutward | atomic.js:146-157 | On each axis, reflection keeps or negates the component, so the speed along the axis is kept. It negates only when the leading edge is at or past a wall and the component points out through it. In a box wider than one atom, a component at a wall ends up pointing back inside. |
| Circle.Reflect | atomic.js:146-157 | Reflection never moves the atom and never touches the burst state. |
| Circle.IntegrateKeepsBurstOk | atomic.js:126-157 | One integration step keeps the invariant `!isAcc ==> a == 0` and `a <= amax`. |
| Circle.AccelerateAlongHeading | atomic.js:127-139 | The burst pushes the velocity along its own heading: the new velocity is `(vmag + dt * a) / vmag` times the old one. A cruising atom is left unchanged, and no atom moves. |
| Circle.Overspeed | atomic.js:140-143 | The overspeed check never changes position or velocity. Above the limit it forces `isAcc` with `a = 0`; otherwise it leaves the burst state alone. |
| Circle.Move | atomic.js:144-145 | The move changes only the position; velocity and burst state are kept. |
| Circle.MoveUndone | atomic.js:144-145 | Moving by `-dt` undoes moving by `dt`: the move is a translation along the velocity. |
| Circle.ReflectAxisIdempotent | atomic.js:146-157 | In a box wider than one atom, reflecting a component that has already been reflected changes nothing. |
| Circle.IntegrateSpeeds | atomic.js:126-157 | After the overspeed check, the move and the reflection, each velocity component has the magnitude the burst step gave it. |
| Circle.BurstTransitions | atomic.js:126-145 | The burst state machine, one tick. A cruising atom keeps cruising with its velocity. A bursting atom with `a > -amax` decays `a` by `dt * jerk`; otherwise the burst ends with `a = 0`. Overspeed forces `isAcc` with `a = 0`. The position advances by `dt` times the post-burst velocity. |
| Passes.NeighboursExactly | atomic.js:88-96 | The partners atom `k`'s loop pushes in a range are exactly the other atoms in range that are within reach. |
| Passes.NeighboursAscending | atomic.js:89-96 | Those partners are pushed in increasing index order, so each appears once. |
| Passes.PairsBelowExactly | atomic.js:271-273 | After the atoms below `k` have run their loops, the resolved pairs are exactly the touching pairs `i < j` with `i < k`. |
| Passes.PairsBelowOrdered | atomic.js:271-273 | Those pairs come in lexicographic order, and every lower index is below `k`. |
| Passes.NearPairsExactlyOnce | atomic.js:271-273 | Over the whole pass, each touching pair is resolved exactly once, by its lower index. Nothing else is resolved. |
| Passes.ResolveEffect | atomic.js:97-103 | Resolving a pair changes only its two atoms' velocities. Touching atoms leave with exactly opposite velocities; atoms that do not touch are left unchanged. |
| Passes.ResolveSpeeds | atomic.js:97-103 | Both atoms of a touching pair leave at speed `newV`, the mean of their two speeds. |
| Passes.ResolveAllVelocitiesOnly | atomic.js:88-107 | The whole collision pass changes velocities only, never positions or burst state. |
| Passes.UntouchedKeepsVelocity | atomic.js:88-107 | An atom in no resolved pair comes out of the pass unchanged. |
| Passes.LastResolvedOpposite | atomic.js:97-103 | After a sequence of resolutions, the last pair, if touching, ends with exactly opposite velocities. |
| Passes.HitIff | atomic.js:93-96 | Atom `k`'s loop resolves the pair with `j` exactly when `k < j` and the two touch. Below `k`, a touching `j` has already recorded `k` in `_hits`. Above `k`, `_hits` of `j` is still empty. |
| Passes.PartnerEffect | atomic.js:93-104 | With no contact, or with `k` already in the partner's hits, neither the atoms nor `k`'s hits change. Otherwise the partner is pushed onto `k`'s hits, and the two atoms leave with opposite velocities. |
| Passes.CollideWith | atomic.js:93-104 | The body of the loop in `collisions` leaves the atoms and hits that `PartnerEffect` describes. |
| Passes.CollideNext | atomic.js:90-105 | One iteration of atom `k`'s loop, including skipping itself, keeps the row-by-row description. |
| Passes.CollideLoop | atomic.js:89-106 | The loop of `collisions` run by atom `k`, over every `j`, takes the atoms and hits from the state after the rows below `k` to the state after row `k`. |
| Passes.CollideRow | atomic.js:88-107 | `collisions` run by atom `k` extends the row-by-row description from the rows below `k` to the rows below `k + 1`. |
| Passes.Collisions | atomic.js:271-273 | The collision loop leaves the atoms as the fold of `Resolve` over the touching pairs, and each atom's hits as its touching partners above it. The same loop is in main.js:253-255. |
| Passes.LinksExactlyOnce | atomic.js:166-184 | Each pair within `armlen` gets exactly one rim-to-rim line, drawn by its lower index, and no other line is drawn. |
| Passes.LinkWith | atomic.js:171-181 | `arm` records an in-range partner even when the line is suppressed. The line is drawn only when the partner has not recorded `k`, which keeps the drawing equal to the specified lines. |
| Passes.LinkNext | atomic.js:167-170 | One iteration of `renderArms`: atom `k` skips itself, and any other atom is handled by `LinkWith`. Either way the arms and the drawing move on by one partner. |
| Passes.LinkRow | atomic.js:166-184 | `renderArms` run by atom `k` extends the drawing from the pairs below `k` to the pairs below `k + 1`, and fills atom `k`'s arms. |
| Passes.RenderArms | atomic.js:274-276 | The link loop draws the specified lines of all in-range pairs, in order, and leaves every atom's arms as all the atoms within `armlen` of it. The same loop is in main.js:256-258. |
| Passes.Integration | atomic.js:277-279 | The integration loop applies the physics of `render` to every atom and draws one disc per atom at its new position. |
| Passes.ClearTransients | atomic.js:263-266 | After the clearing loop, every `_hits` and every `_arms` list is empty. |
| Passes.SpawnAll | atomic.js:251-258 | The generation loop creates one new atom per sample, in order. |
| Passes.Spawned | atomic.js:251-258 | Freshly spawned atoms all keep the burst invariant. |
| Passes.EmptyLists | atomic.js:26-27 | New atoms start with empty `_hits` and `_arms` lists. |
| Passes.CollideAndLink | atomic.js:271-276 | The collision loop and then the link loop. The atoms are the fold of `Resolve` over the touching pairs. Each atom's `_hits` holds its touching partners above it, in the atoms as they were. Each atom's `_arms` holds every atom within `armlen` of it, in the atoms as collided. The lines are those of the in-range pairs. |
| Passes.AfterPointerPasses | atomic.js:271-279 | Collisions, links and integration leave the atoms, the drawing and the `_hits`/`_arms` lists that `AfterPointer` specifies. Links are drawn before discs, and each pass sees the atoms the previous one left. |
| Passes.ResolveAllKeepsBurstOk | atomic.js:88-107 | The collision pass keeps every atom's burst invariant. |
| Passes.IntegrateAllKeepsBurstOk | atomic.js:277-279 | The integration pass keeps every atom's burst invariant. |
| Passes.AfterPointerKeepsBurstOk | atomic.js:271-279 | The last three passes of a frame keep every atom's burst invariant. |
| Atomic.Merged | atomic.js:205-209 | After the merge, a supplied key holds the supplied value, every other key keeps its value, and no other key appears. |
| Atomic.Configured | atomic.js:202-248 | The constructor's option writes: the merge, skipped without an options object, then the canvas size as `xmax`/`ymax`, which overrides any supplied `xmax`/`ymax`. |
| Atomic.FirstInstanceOptions | atomic.js:188-209 | On the first construction, each supplied key holds its supplied value and each other default keeps its default. |
| Atomic.SecondInstanceInherits | atomic.js:204-208 | Because `defaultOptions` is shared and mutated, a second instance sees a key that the first caller supplied and the second did not with the first caller's value, not the default. |
| Atomic.DefaultsComplete | atomic.js:188-200 | `defaultOptions` has a value for every option except the canvas size, and every numeric default, the atom count included, is positive. |
| Atomic.DefaultNumbers | atomic.js:188-200 | The default options hold 500 atoms, `r` 2, `vmax` 3, `armlen` 100, `mouser` 100, `mousev` 3, `clickr` 300, `amax` 3, `jerk` 1 and the two colours, and no `xmax`/`ymax`. |
| Atomic.DefaultSettings | atomic.js:188-248 | With the defaults and a canvas size, the constants the frame reads are the default ones plus the canvas size, and they are usable. |
| Atomic.OptionStore.constructor | atomic.js:188-200 | The shared options object starts as the defaults. |
| Atomic.OptionStore.Merge | atomic.js:205-209 | Assigning the supplied keys one at a time leaves the options `Merged` describes, whatever the key order. |
| Atomic.OptionStore.Configure | atomic.js:204-248 | The constructor's writes to the shared options leave them as `Configured` describes. |
| Atomic.OnlyFirstBursts | atomic.js:267-270 | Only atom 0 can enter the burst state from a click: every other atom keeps its burst state. Atom 0 bursts when clicked within `clickr`. No atom moves. |
| Atomic.ClickReachesAtomZeroOnly | atomic.js:267-270 | The pointer loop with a click differs from the one without only at atom 0. Without a click, every atom runs `mouseEffect` unclicked. |
| Atomic.PointedKeepsBurstOk | atomic.js:267-270 | The pointer loop keeps every atom's burst invariant. |
| Atomic.Atomic.constructor | atomic.js:202-261 | `new Atomic(options)` writes the shared options and spawns the sampled atoms with empty lists. The pointer starts at rest and unclicked, `dt` is 0.1, and the instance invariant holds. It ends before the first frame, which the caller's first `Draw` stands for. |
| Atomic.Atomic.PointerPass | atomic.js:267-270 | The pointer loop leaves atom `t` as `mouseEffect` with the click flag only for `t = 0`. `_clicked` is false afterwards whenever there is an atom. |
| Atomic.Atomic.Draw | atomic.js:262-280 | One `_draw` frame. The atoms, the drawing and the `_hits`/`_arms` lists are `AfterPointer` of the pointer loop's result, with `vmax` as the overspeed threshold. So `_hits` of `t` holds the atoms above `t` that touched it, and `_arms` of `t` every atom within `armlen` of it after the collisions. The click is consumed whenever there is an atom. The burst invariant survives. |
| MainScript.Settings | main.js:30-42 | The globals: 500 atoms, `r` 2, `vmax` 30, `mousev = vmax`, `mouser` 10, `clickr` 300, `amax` 30, `jerk` 6, with the canvas size as `xmax`/`ymax`. They are usable constants. |
| MainScript.DecayedStaysInRange | main.js:239-245 | One decay keeps `a` between `-amax - dt * jerk` and `amax`. |
| MainScript.DecayedTimesStaysInRange | main.js:239-245 | Any number of decays keep `a` between `-amax - dt * jerk` and `amax`. |
| MainScript.GlobalAStaysZero | main.js:239-245 | Starting at 0, the global `a` is still 0 after any number of frames. |
| MainScript.DecayLikeBurst | main.js:239-245 | A non-zero `a` would follow exactly the decay of an atom's burst acceleration. |
| MainScript.EveryNearAtomBursts | main.js:157-160 | On a click, every atom within `clickr` enters the burst state at `amax`. Without a click, or out of range, no atom's burst state changes. |
| MainScript.RepelledAtRest | main.js:146-156 | Repulsion does not depend on pointer movement: every atom within `mouser` leaves at speed `abs(mousev)`, straight away from the pointer. |
| MainScript.PointerLoopsAgree | main.js:250-252 | Without a click, this pointer loop equals the `atomic.js` loop with the pointer moving. With a click, the two still agree on atom 0. |
| MainScript.PointedAllKeepsBurstOk | main.js:250-252 | The pointer loop keeps every atom's burst invariant. |
| MainScript.NoClickNoBurst | main.js:250-262 | A frame without a click changes no atom's burst state in the pointer loop. |
| MainScript.Globals.constructor | main.js:226-237 | The script's start: the sampled atoms with empty lists, `a = 0`, no click, `dt` 0.1, and the invariant, which includes `a = 0`. It ends before the first frame, which the caller's first `Draw` stands for. |
| MainScript.Globals.DecayA | main.js:239-245 | The decay at the top of `draw` updates `a` as `Decayed` says. |
| MainScript.Globals.PointerPass | main.js:250-252 | Every atom runs `mouseEffect` with the same click flag, as if the pointer were moving. |
| MainScript.Globals.Draw | main.js:238-263 | One `draw` frame. `a` decays. The atoms, the drawing and the hit and arm lists are `AfterPointer` of the pointer loop's result, with `2 * vmax` as the overspeed threshold. `clicked` is false afterwards. The burst invariant survives. |

## Left out

- **Drawing.** The canvas and the DOM setup, the `requestAnimFrame` shim and
  the self-scheduling `render` loop are I/O and frame scheduling. Each call of
  `Draw` is one frame. The drawing it would issue is returned as a list of
  `DrawCmd` values (a line in a colour, or a disc); `color2Str` and the
  `ctx.*` calls are not modelled.
- **The first frame.** The render loop is an immediately-called function.
  So `new Atomic` draws its first frame before it returns
  (atomic.js:282-286), and main.js draws one as it loads
  (main.js:265-269). The model's constructors end in the state before that
  frame, and the caller's first `Draw` stands for it.
- **Pointer input.** The `mousemove` and `click` listeners are not modelled,
  and neither is the `setTimeout` that clears `_moving` after a second. The
  pointer position and the `moving`/`clicked` flags are fields that a caller
  sets between frames.
- **Initial sampling.** `Math.random` is not modelled: the sampled position
  and velocity of each atom are a parameter of the constructors.
- **Floating point.** Coordinates are exact reals.
  - `Math.sqrt`, `Math.atan2`, `Math.cos` and `Math.sin` are given
    functions, and only the laws in `Circle.Lawful` are assumed.
  - The post-collision speed `newV` is proved only under the laws in
    `Circle.Lawful` (`Passes.ResolveSpeeds`).
- **Option values.** They are typed as a number, an atom count or a colour.
  The constructor requires readable settings that match the atom count,
  and `Circle.ParamsOk`. Settings outside that are not modelled:
  - An option that is missing or of the wrong kind makes the settings
    unreadable. JavaScript would compute with `undefined` or `NaN` there.
  - `r` and `armlen` must be positive. They are divisors in the collision
    (atomic.js:98-99) and in the link alpha (atomic.js:174), so 0 gives
    `NaN` or `Infinity`. A negative `r` also makes `ctx.arc` throw at the
    first draw.
  - `amax` and `jerk` must be non-negative, because the burst invariant
    `a <= amax` needs that. With a negative `amax` or `jerk` the source runs
    on with ordinary numbers, but it breaks that invariant itself: an
    overspeeding atom ends with `a = 0 > amax`, and a negative `jerk`
    raises `a` above `amax`.
- Atomic.Atomic.Draw: each `Circle` captures `r` when it is built
  (atomic.js:19, 257), so a later `new Atomic({r: ...})` does not change the
  radius of existing atoms. The model reads `r` from the shared options
  every frame instead.
- Atomic.Atomic.Draw: a later `numAtoms` that no longer matches
  `_atoms.length` makes the source's loops skip atoms or throw on
  `undefined`. In the model the instance invariant `Valid()` fails, so
  `Draw` cannot be called.
- Atomic.Atomic.Draw: a later `new Atomic({amax: ...})` with an `amax`
  below some existing atom's current `a` also makes `Valid()` fail, so
  `Draw` cannot be called. The source keeps running in that case.
- Atomic.Atomic.Draw: the model reads the options once per frame; the source
  reads `this._options` at every use. JavaScript runs one frame to
  completion, so nothing can change the options in between.
- **Object identity.** Identity (`atoms[i] === this`, `_hits` and `_arms` as
  lists of atom objects) is modelled as index equality and lists of
  indices. `hasHit` and `inArms` become membership tests on those lists.
- Passes.RenderArms: it reads the atoms as a sequence value, not through the
  array. The link pass does not change any atom, so nothing is lost.
