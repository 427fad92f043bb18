# Notions classification registry, modelled in Dafny

This project models the in-memory classification registry behind the
notions GraphQL service (`notions_graphql.py`). The registry has four kinds
of object.

- A **notion frame** names a kind of observation. It carries a declared type and unit, a
  *converter* (argument dictionary -> property) and a *discriminator*
  (property -> classification).
- A **notion value** is one observation against a frame. Its property and its
  classification are computed once, when it is created.
- A **perceptive frame** groups several notion frames by name and carries a
  *composite discriminator* over them.
- A **perceptive frame instance** binds notion values to a perceptive frame. Its
  classification is recomputed on every read by running the composite
  discriminator over the bound values and their frames, then taking the
  `name` of the result.

Each kind of object lives in a process-wide dictionary that its constructor
writes. The frame, value and perceptive-frame tables each have a getter and
a list resolver. The instance table is written but never read: the
instance class's getter reads the value table instead, and no query lists
instances.

Layout:

- `pyobjects.dfy` (`PyObjects`) holds the pieces of the Python runtime that the core relies
  on: the raised errors (`KeyError`, `AttributeError`, `IndexError`, and errors
  raised by a rule), objects that are or are not `IntEnum` members, the
  enum-or-raw display, and the `.name` attribute.
- `dicts.dfy` (`Dicts`) models Python's `dict` with string keys. It is a map plus the
  first-insertion order of its keys. `d[k] = v`, `d.get(k)`, `d[k]`, `values()`
  and the `{k: v for k, v in zip(ks, vs)}` comprehension are modelled, with
  their laws proved: last value wins, and keys stay in first-occurrence order.
- `enums.dfy` (`Enums`) holds the `IntEnum` classes. `NotionType` and `NotionUnit`
  are plain tags, because the core only stores them. The classes whose members
  rules return (`AgeClass`, `Gender`, `Person`) give each member its integer
  value.
- `notions.dfy` (`Notions`) holds the four entities and the pure part of every operation:
  - value evaluation;
  - the argument fold of `createNotionValue`;
  - building a perceptive frame's frame dictionary;
  - building an instance's value dictionary;
  - the instance `id` and `classification` resolvers.
- `registry.dfy` (`Tables`) holds the four dictionaries, as the fields of a `Registry` class. The
  four constructors are its methods: each is specified against the pure
  function that computes its result, and each preserves the registry
  invariant. The class also has the getters and the list resolvers.
- `example.dfy` (`LegalExample`) is a client that uses the registry. It registers an age frame and a
  gender frame, one value against each, and a legal-status perceptive frame
  over both. An instance naming an unknown value is refused, and the
  instance over a 14-year-old and `FEMALE` is classified `GIRL`. This client
  is not part of the source; it shows that the contracts compose.

Three behaviours of the code are worth stating up front:

- Re-registering an existing name silently replaces the earlier object. No
  duplicate-name error is raised.
- An unknown value id in an instance raises `AttributeError` on `frame`, not a
  not-found error, because `get_notion_value` returns `None`.
- An unknown frame or perceptive frame name raises `KeyError`.

## Model

| member | source | states |
|---|---|---|
| PyObjects.Display | notions_graphql.py:430-444 | The property or classification field shows an enum member by its name; any other object is shown unchanged. |
| PyObjects.NameOf | notions_graphql.py:476 | `.name` succeeds exactly on enum members, and then gives the text the display shows. On anything else it raises `AttributeError('name')`. |
| Dicts.Dict.Put | notions_graphql.py:52 | `d[k] = v` binds `k` to `v` and keeps every other binding. An existing key keeps its place in the order; a new key goes last. The dict stays well formed. |
| Dicts.Dict.Get | notions_graphql.py:69 | `d.get(k)` is `None` exactly when `k` is missing; otherwise it is the bound value. |
| Dicts.Dict.Index | notions_graphql.py:55 | `d[k]` raises `KeyError(k)` exactly when `k` is missing; otherwise it gives the bound value. |
| Dicts.Dict.Values | notions_graphql.py:361 | `d.values()` lists one value per key, in key order. |
| Dicts.ValuesAfterPut | notions_graphql.py:52 | After `d[k] = v`, the values list gains `v` at its end for a new key, or has `v` in place of the old value for an existing key. |
| Dicts.Empty | notions_graphql.py:42 | `dict()` is the well-formed dict with no keys. |
| Dicts.Zip | notions_graphql.py:80 | `zip(ks, vs)` pairs the lists element-wise and is as long as the shorter one. The same `zip` appears at 99, 475 and 499. |
| Dicts.FromPairs | notions_graphql.py:80 | The dict comprehension gives a well-formed dict. |
| Dicts.FromPairsKeys | notions_graphql.py:80 | The comprehension's keys are exactly the keys that occur in the pair list. |
| Dicts.FromPairsLastWins | notions_graphql.py:80 | Each key is bound to the value of its last pair: later duplicates overwrite earlier ones. |
| Dicts.FromPairsFrom | notions_graphql.py:80 | Every entry comes from the last pair with its key. |
| Dicts.FromPairsOrder | notions_graphql.py:80 | The keys are in the order of their first occurrence in the pair list. |
| Dicts.FromPairsDistinct | notions_graphql.py:473-475 | With distinct keys, the comprehension keeps every pair, in list order. |
| Notions.EvaluateNotionValue | notions_graphql.py:61-66 | A value is built exactly when the converter and then the discriminator succeed. Its property is the converter's result, and its classification is the discriminator's result on that property. The first rule that raises decides the error. |
| Notions.ArgKeys | notions_graphql.py:497 | One key per argument, in list order. |
| Notions.ArgValues | notions_graphql.py:498 | One value per argument, in list order. |
| Notions.FoldArgs | notions_graphql.py:497-499 | The argument dict is well formed, and its keys are exactly the keys in the argument list. |
| Notions.FoldArgsSpec | notions_graphql.py:497-499 | The folded `args` dict has exactly the keys of the argument list. Each key is bound to the value of its last occurrence; every entry comes from such an occurrence; keys are in first-occurrence order. |
| Notions.LookupFrames | notions_graphql.py:77 | Looking the names up succeeds exactly when every name is registered, and gives the registered frames in list order. Otherwise the first unknown name raises `KeyError`. |
| Notions.FrameNames | notions_graphql.py:78 | One name per looked-up frame, in list order: that frame's own name. |
| Notions.BuildPerceptiveFrame | notions_graphql.py:75-84 | The constructor's result is built exactly when every frame name is registered, and otherwise is a `KeyError` for one of the names. It keeps the name, the rule text and the rule, and its frame dict is well formed. |
| Notions.PerceptiveFrameSpec | notions_graphql.py:75-84 | A perceptive frame is built exactly when every frame name is registered; otherwise the first unknown name raises `KeyError`. It keeps its name, rule text and rule. Its frame dict has one entry per distinct name, bound to the frame registered under it, keyed by each frame's own name, in first-occurrence order. |
| Notions.LookupValues | notions_graphql.py:96 | One lookup per id, in list order: `None` exactly for an unknown id. |
| Notions.ValueFrameNames | notions_graphql.py:97 | Taking `nv.frame.name` succeeds exactly when every looked-up value is present, and gives their frame names in order. A `None` raises `AttributeError('frame')`. |
| Notions.Present | notions_graphql.py:98 | When every lookup found a value, the values in list order. |
| Notions.BuildInstance | notions_graphql.py:93-100 | The constructor's result is built exactly when the perceptive frame and every value id are registered. An unknown perceptive frame gives `KeyError`, and otherwise a failure is `AttributeError('frame')`. On success the id is the tuple `(id,)`, the perceptive frame is the registered one, and the value dict is well formed. |
| Notions.KeyByFrameSpec | notions_graphql.py:97-99 | Keying values by frame name gives one entry per frame name present, in first-occurrence order, bound to the last value of that frame. Evaluated values give a dict in which each value sits under its own frame's name. |
| Notions.InstanceSpec | notions_graphql.py:93-100 | An instance is built exactly when its perceptive frame and all value ids are registered. An unknown perceptive frame raises `KeyError` first; otherwise an unknown id raises `AttributeError('frame')`. The stored id is the one-element tuple `(id,)`; the instance holds the registered perceptive frame and the bound values keyed by frame name. |
| Notions.InstanceValuesSpec | notions_graphql.py:96-99 | The held values form a well-formed dict. Each value sits under its own frame's name, keeps its eagerly computed classification, and is the last supplied value of its frame. The keys are in first-occurrence order. |
| Notions.InstanceId | notions_graphql.py:458-460 | The `id` field is element 0 of the stored tuple; an empty tuple raises `IndexError`. |
| Notions.ValueFrames | notions_graphql.py:474 | One frame per value, in list order: that value's frame. |
| Notions.FramesOf | notions_graphql.py:473-475 | The frame dict the classification resolver builds is well formed, with the same keys as the held values, in the same order. |
| Notions.FramesOfSpec | notions_graphql.py:472-475 | The classification resolver's frame dict has the same keys as the held values, in the same order, each bound to that value's frame. |
| Notions.FramesOfIsFrameMap | notions_graphql.py:472-475 | That frame dict is the value dict with each value replaced by its frame. |
| Notions.Classification | notions_graphql.py:470-476 | The instance classification succeeds exactly when the composite discriminator returns an enum member, and gives that member's name. A rule error propagates unchanged. |
| Notions.ClassificationByFrames | notions_graphql.py:470-476 | The classification is the composite discriminator applied to the frame-per-key dict and the held values, followed by `.name`. |
| Tables.Registry.constructor | notions_graphql.py:42 | The four tables start empty, as the class-level `dict()`s at 42, 59, 73 and 91 do; the registry invariant holds. |
| Tables.Registry.GetNotionFrame | notions_graphql.py:54-55 | Succeeds exactly for a registered name, giving the frame stored under it, whose own name is that name. Otherwise it raises `KeyError(name)`. |
| Tables.Registry.GetNotionValue | notions_graphql.py:68-69 | `None` exactly for an unknown id. Otherwise it gives the stored value, whose id is that id and whose classification is its frame's verdict on its property. |
| Tables.Registry.GetPerceptiveFrame | notions_graphql.py:86-87 | Succeeds exactly for a registered name; otherwise it raises `KeyError(name)`. |
| Tables.Registry.GetPerceptiveFrameInstanceValue | notions_graphql.py:102-103 | As written, it reads the notion-value table, so it agrees with `GetNotionValue`. |
| Tables.Registry.ListNotionFrames | notions_graphql.py:359-361 | One frame per registered name, in first-registration order; each is the frame registered last under that name. |
| Tables.Registry.ListNotionValues | notions_graphql.py:367-369 | One value per registered id, in first-registration order; every registered id appears. |
| Tables.Registry.ListPerceptiveFrames | notions_graphql.py:371-373 | One perceptive frame per registered name, in first-registration order. |
| Tables.Registry.NewNotionFrame | notions_graphql.py:44-52 | Binds the name to the new frame, replacing any earlier frame. Other names and the other tables are unchanged. A new name appends the frame to the list. The registry invariant is kept. |
| Tables.Registry.NewNotionValue | notions_graphql.py:61-66 | Stores the evaluated value under its id only when both rules succeed. A rule error leaves every table unchanged. |
| Tables.Registry.CreateNotionValue | notions_graphql.py:494-500 | An unknown frame name raises `KeyError` before anything is written. Otherwise the value is evaluated against the registered frame with the folded argument dict, and stored under its id on success. |
| Tables.Registry.NewPerceptiveFrame | notions_graphql.py:75-84 | Stores the built perceptive frame under its name, or leaves every table unchanged on `KeyError`. |
| Tables.Registry.NewPerceptiveFrameInstance | notions_graphql.py:93-100 | Stores the built instance under its id, or leaves every table unchanged when a lookup fails. |

## Left out

- Compiling rule source text with `exec` (`notions_graphql.py:484-489`, `504-506`) is not
  modelled. A frame or a perceptive frame is given its rules as function
  values together with the source text. A compile error is therefore not
  modelled.
- The mutations `createNotionFrame`, `createPerceptiveFrame` and
  `createPerceptiveFrameInstance` (`notions_graphql.py:482-511`) are modelled
  by the constructors they forward to, once the rules are compiled:
  `Tables.Registry.NewNotionFrame`, `NewPerceptiveFrame` and
  `NewPerceptiveFrameInstance`. The single-frame query
  (`notions_graphql.py:363-365`) is `Tables.Registry.GetNotionFrame`.
- The GraphQL schema text, the resolver bindings, the ASGI application and
  the `uvicorn` entry point are not modelled. Neither is the `Datetime`
  scalar, which only parses and prints dates.
- The plain field resolvers are not modelled separately. These are
  `name`/`type`/`unit`/the rule text of a frame, the perceptive frame's fields,
  and an instance's `perceptiveFrame` and `notionValues`. Each returns a stored
  field, or `values()` of a stored dict (`Dicts.Dict.Values`).
- Rules are pure functions of their inputs. A rule that reads the tables,
  has side effects or is non-deterministic is not modelled. A rule that
  raises is modelled as an error result.
- Python objects other than `IntEnum` members are modelled as text, numbers
  or opaque values, none of which has a `name` attribute. A non-enum object
  that has one is not modelled: `Notions.Classification` reports
  `AttributeError` for it.
- The `BiologicalGender` enum (`notions_graphql.py:31-33`) is not modelled. Only
  commented-out code creates or returns its members.
- The commented-out legal-age and gender frames, and their resolvers, are not part of the running code.
- Concurrency between resolvers is not modelled. The dictionaries are process-wide and
  unguarded.
