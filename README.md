# eidos: word table, world sampling and the per-frame spell driver

This project models three pieces of the eidos spell sandbox in Dafny.
In eidos a player builds spells by saying words. Each word pushes a function
onto a stack interpreter, and the resulting fields are sampled over the 2-D
play area.

- `words.dfy` (module `WordTable`) covers the closed vocabulary of 27 words.
  It holds the tagged `Function` each word denotes and the mana each word
  costs. It proves that the word-to-function map is a bijection onto the
  functions the table names. It also proves the cost bounds and that the cost
  of a word is fixed by its function.
- `world.dfy` (module `WorldSampling`) covers the world's read-only sampling
  facade. It has the point-in-shape tests (circle, box, half-space, capsule),
  the object lookup by point, and the field-kind dispatch. A missing density
  reads as 0 and a missing output vector field reads as the zero vector.
- `game.dfy` (module `GameFrame`) covers the frame driver in `Game::ui`.
  From a fresh runtime it replays the persisted spell words and stops at the
  first error. It runs the staging words only if the spell succeeded, without
  stopping on errors. It then picks the displayed fields, with `Uniform(0.0)`
  as the fallback. It also keeps one visibility toggle per field kind and has
  the density sampler of `FieldsSource`.
- `basics.dfy` (module `Basics`) holds the shared `Option` type.

The interpreter behind `Game::ui` is not part of this model. That covers the
runtime, the field algebra, the function enums and `math::rotate`. Where the
model needs them, they are parameters: `call` is a step function from a
runtime and a function to the runtime it leaves behind and the error it
returned, `top` is the top field of a runtime, `rotate` rotates a vector, and
`sample` and `polygonContains` sample an output field and test a polygon.
`Game` is a class because `ui` updates its `fields_visible` table in place.
The evaluation loops are methods with loop invariants, proved equal to
recursive functions (`RunSpell`, `RunStaging`). Those functions are in turn
characterised by a positional reference semantics: `StateAfter` is the runtime
after the first k calls, and `ErrorAt(k)` is the error the call of `fs[k]` returns.

Where the source files disagree with each other, the model follows each file
on its own:
- `word.rs` names four scalar input kinds (Elevation, Density, Light, Magic).
  `World::sample_input_scalar_field` matches only `Density`. So
  `WorldSampling` has a one-variant `ScalarInputFieldKind`, separate from the
  word table's.
- `FieldsSource::sample_scalar_field` reads `world.static_objects`, which the
  `World` in `world.rs` does not have. It is modelled on its own list of
  polygon objects (`GameFrame.StaticObject`).

## Model

| member | source | states |
|---|---|---|
| WordTable.FunctionOf | src/word.rs:49-80 | every word maps to one function; exactly the 11 nullary words give a nullary constant, exactly Sila and Vila give a control read, exactly No, Mo, Re and Rovo give a combinator |
| WordTable.WordForFunctionOf | src/word.rs:49-80 | the inverse table recovers every word from its function |
| WordTable.FunctionOfWordFor | src/word.rs:49-80 | every function the table names comes from the word the inverse gives |
| WordTable.FunctionOfInjective | src/word.rs:51-79 | two words denote the same function if and only if they are the same word |
| WordTable.AllWordsEnumerates | src/word.rs:7-46 | the derived enumeration lists all 27 words, each once |
| WordTable.Cost | src/word.rs:81-94 | every cost lies in [1, 10]; 10 is reached by Te alone; the cost is 1 exactly for the words outside Tu, Ta, Te, Sila, Vila, Pa, Pi |
| WordTable.NumberWordCost | src/word.rs:52-87 | exactly Ti, Tu, Ta, Te push a number constant, and each costs the number it pushes (1, 2, 5, 10) |
| WordTable.NumberWordsAscending | src/word.rs:52-55 | Ti, Tu, Ta, Te push strictly ascending constants |
| WordTable.CostByFunction | src/word.rs:49-94 | a word's cost is fixed by its function: a number costs its value, a slider read 2, a target coordinate 3, anything else 1 |
| WordTable.CombinatorWords | src/word.rs:71-74 | No, Mo, Re, Rovo map one-to-one onto Drop, Duplicate, Swap, Over |
| WorldSampling.Contains | src/world.rs:83-97 | a circle contains only points within its radius on each axis; a box only points within size.x / 2 of the centre, and nothing unless size.x > 0; a capsule only points with abs(x) < radius and abs(y) < abs(halfHeight) + radius; for normal.y != 0 a half-space is exactly the points whose dot product with the normal has the sign opposite to normal.y |
| WorldSampling.InDiscIsDistance | src/world.rs:85 | the squared-distance disc test agrees with comparing the true distance against the radius |
| WorldSampling.CircleOfNonPositiveRadiusIsEmpty | src/world.rs:85 | a circle of radius at most 0 contains no point |
| WorldSampling.BoxIsSquare | src/world.rs:86 | box containment ignores size.y and is symmetric in x and y: the box is a square of half-width size.x / 2 |
| WorldSampling.HalfSpaceByDot | src/world.rs:87 | for n.y > 0 the half-space is the set of points with n . p < 0; for n.y < 0 it is the set with n . p > 0 |
| WorldSampling.HalfSpaceIgnoresOrientation | src/world.rs:87 | negating the normal leaves the half-space unchanged |
| WorldSampling.GroundHalfSpace | src/world.rs:43 | the ground's normal (0, 1) gives the half-space y < 0 |
| WorldSampling.CapsuleSymmetric | src/world.rs:88-95 | capsule containment is symmetric under x to -x and under y to -y |
| WorldSampling.CapsuleOfZeroHeightIsCircle | src/world.rs:88-95 | a capsule of half-height 0 is the circle of its radius |
| WorldSampling.CapsuleContainsCircle | src/world.rs:88-95 | a capsule with half-height at least 0 contains the circle of its radius |
| WorldSampling.LocalPointTranslated | src/world.rs:102-106 | the point in an object's frame, and so whether the object contains it, is unchanged when the object and the point move by the same vector, and when the shape offset is folded into the position |
| WorldSampling.FindIn | src/world.rs:101-107 | the search over an iteration order gives none if and only if no listed object contains the point in its own frame; otherwise it gives a listed object that does, and no object listed before it contains the point |
| WorldSampling.FindObjectAt | src/world.rs:101-107 | gives none if and only if no object of the world contains the point moved into that object's frame; otherwise it gives an object of the world that contains it |
| WorldSampling.SampleInputScalarField | src/world.rs:120-127 | the density at p is the density of some object containing p, or 0.0 when no object contains p |
| WorldSampling.SampleOutputVectorField | src/world.rs:134-140 | the zero vector when the output table has no field of the kind, else that field sampled at p |
| WorldSampling.SampleScalarField | src/world.rs:108-113 | a scalar sample dispatches on its input tag to the input sampler |
| WorldSampling.SampleVectorField | src/world.rs:114-119 | a vector sample dispatches on its output tag to the output sampler |
| WorldSampling.DensityIgnoresOutputs | src/world.rs:120-127 | the density depends only on the objects, not on the output fields or the player position |
| WorldSampling.DensityOfUniformWorld | src/world.rs:101-127 | when all objects share one density, the sample is that density where some object contains p and 0.0 elsewhere, whatever the iteration order |
| GameFrame.RunSpell | src/game.rs:49-54 | the spell loop makes at most one call per word, makes all of them when no call fails, and makes at least one call when it fails |
| GameFrame.SpellStopsAtFirstError | src/game.rs:49-54 | the spell loop fails if and only if some call fails; it then reports the first failing call's error, has made exactly the calls up to that one and none after, and holds the runtime that call left; otherwise it holds the runtime after all calls |
| GameFrame.RunStaging | src/game.rs:59-65 | the staging loop never clears a recorded error, and a failing first call always leaves an error |
| GameFrame.StagingCallsAll | src/game.rs:59-65 | the staging loop makes every call even after a failure, ends with the runtime after all calls, and reports the error of the last failing call |
| GameFrame.LastErrorIsLastFailure | src/game.rs:60-64 | the recorded error is that of the last failing call: a later failure overwrites an earlier one |
| GameFrame.LastErrorWithoutFailure | src/game.rs:59-65 | with no failing call the recorded error is the one the loop started with; starting from none, it stays none exactly when no call fails |
| GameFrame.EvaluateFrame | src/game.rs:47-70 | a failed spell is the frame's error, which staging cannot replace; any frame error shows `Uniform(0.0)` as the staging field |
| GameFrame.FrameAfterSpell | src/game.rs:47-70 | the displayed spell field is the top field after the spell loop, even when that loop failed; a failed spell is the frame's error, shows `Uniform(0.0)` as staging, and calls no staging function |
| GameFrame.FrameAfterStaging | src/game.rs:59-70 | the frame has no error if and only if no call of the spell words followed by the staging words fails; then the staging field is the top field after all those calls; any error shows `Uniform(0.0)`; after a successful spell the frame's error is the last staging failure |
| GameFrame.Game.constructor | src/game.rs:13-18 | a game holds the persisted spell and staging words it is given and an empty visibility table, as the derived default leaves it |
| GameFrame.Game.Evaluate | src/game.rs:47-70 | the two loops of `ui` (break on the first spell error, no break in staging) compute exactly the frame `EvaluateFrame` gives and call exactly the functions `CallsMade` lists; the persisted words are only read |
| GameFrame.AllFieldKindsEnumerates | src/game.rs:78-89 | the enumeration of field kinds lists every kind, each once |
| GameFrame.Game.ShowToggles | src/game.rs:78-86 | after the toggle row every field kind has an entry: its old value, or false when new, flipped if clicked |
| GameFrame.Game.PlottedKinds | src/game.rs:88-94 | with every kind present the lookup at line 89 cannot fail; the kinds plotted are exactly those whose toggle is on, each once |
| GameFrame.Game.Ui | src/game.rs:45-96 | one frame evaluates the persisted words without changing them, leaves an entry for every field kind, and plots exactly the kinds toggled on |
| GameFrame.DensityAt | src/game.rs:131-137 | the density of the first object whose polygon contains the point, or 0.0 when none does |
| GameFrame.SampleScalarField | src/game.rs:129-139 | the density at (x, y) is read at (x + 1e-5, y + 1e-5): the first static object whose polygon contains that point, else 0.0 |

## Left out

- The runtime, field algebra, function enums and `math::rotate` are not part of this model. `call`, `top`, `rotate`, output-field `sample` and `polygon_contains` are parameters. The model assumes nothing about them beyond being functions.
- The enums behind `Function` are modelled with only the variants the word table names. So the bijection of `WordTable.FunctionOfWordFor` holds for those variants, not for any others the interpreter may define.
- The numbers the nullary constants `One`, `Two`, `Five`, `Ten` push (`WordTable.NumberValue`) are read from their names, because the constants' definitions are not part of this model.
- f32 arithmetic is modelled with reals: no rounding, no NaN or infinity. A distance test `distance(c) < r` becomes a squared-distance test, and `WorldSampling.InDiscIsDistance` shows the two agree. The offset 1e-5 is the exact real.
- WorldSampling.Contains: a half-space with normal.y == 0 divides by zero in the source, which gives an infinity or NaN in f32. The model requires normal.y != 0 (`WellFormed`) instead, and `Valid` asks it of every object.
- WorldSampling.FindObjectAt: the `HashMap` iteration order is unspecified, so it is a parameter `order` that lists each key once. The contract promises only "some containing object", not which one.
- The scalar output and vector input field kinds have no variants, so their `match kind {}` arms cannot be reached. The scalar output table has no possible key and is left out of `OutputFields`.
- `World::default` builds objects through the physics engine, and it is left out. The ground's half-space normal (0, 1) appears only in `WorldSampling.GroundHalfSpace`.
- The physics wrapper, plotting, colours, `FieldPlot` impls, widget layout and `Game::update` are presentation or engine code and are left out. The grid is reduced to the toggle row (`ShowToggles`, where a click flips a toggle) and the list of kinds it would plot (`PlottedKinds`).
- The declaration order of `FieldKind` is not part of this model. `AllFieldKinds` fixes one order, and only the toggles' completeness and the set of plotted kinds depend on it.
- `GameFrame.Game.constructor` takes the persisted words as an argument. The code that edits them when the player speaks is outside these files.
