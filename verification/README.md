# amVim modal key dispatch, modelled in Dafny

This project models the core of amVim's modal key handling for VS Code:

- **the per-mode input buffer** (`src/Modes/Mode.ts`): a mode appends each key
  to its `inputs` buffer and hands the whole buffer to its mapper; when the
  mapper answers with a map, the map's command runs once with the map's
  arguments and the buffer is cleared, otherwise the buffer keeps growing;
- **the mode registry and the switch rule** (`src/Dispatcher.ts`): one mode
  object per mode id (NORMAL, VISUAL, VISUAL_LINE, INSERT), one current mode,
  `switchMode` (no-op on the current mode; otherwise exit the old mode, enter
  the new one, and hand INSERT's recorded command maps to the new mode only
  when leaving INSERT) and the key handler that forwards each key, with `{}`
  as default arguments, to the mode current at call time;
- **the line motions** (`src/Motions/Line.ts`): the `firstNonBlank`, `start`
  and `end` factories and `apply`, which with the first-non-blank flag keeps
  the line and moves to the length of the line's leading whitespace run.

Files: `options.dfy` (an `Option` type), `modes.dfy` (module `Modes`),
`dispatcher.dfy` (module `Dispatching`), `line_motion.dfy` (module `LineMotions`).

How the model is built:

- `Modes.Mode` is a class with the `inputs` buffer as a `seq<string>` field.
  The mapper is a pure function `seq<Key> -> Option<CommandMap>` fixed at
  construction. Each command run is written to a ghost log as an `Invocation`.
  The entry also records the buffer at the moment of the call, so the log shows
  that the command runs before the buffer is cleared. `Feed` specifies one
  `input` call and `Run` a series of calls. The lemmas about `Run` state what
  any sequence of keys does. The class invariant says two things: the buffer
  never holds a prefix the mapper knows, and every logged command was the
  mapper's answer at the first key where its sequence matched.
- `Dispatching.Dispatcher` holds a constant map from mode id to a
  `ModeInstance` object, a `currentMode` reference and a ghost trace of the
  calls it makes on modes (`Exit`, `Enter`, `RecordFinish`, `Input`). The
  mode objects are modelled only through this interface (id, recorded command
  maps), not through the `Mode.ts` class. The legal orders of calls are given
  by a small automaton (`Step`, `Accepts`). The dispatcher's invariant is that
  its trace is accepted and leaves the automaton at rest in the current mode.
- `LineMotions.Apply` takes the position the base motion produced and the text
  of that line, absent when there is no active editor. JavaScript's `\s` is
  written out as the ECMAScript WhiteSpace and LineTerminator code points.

This version of `src/Modes/Mode.ts` keeps the buffer on every miss. It has
no three-way match outcome, no escape handling, no command queue and no
`enter`/`exit`. `MatchResultKind` and the Promise that `input` returns in
`src/Dispatcher.ts` come from files that are not part of this model.

## Model

| member | source | states |
|---|---|---|
| Modes.Feed | src/Modes/Mode.ts:16-25 | one `input(key)` call runs at most one command; it runs one exactly when the mapper knows the previous buffer followed by `key`, and the command is the mapper's answer; after a match the buffer is empty; every key is either used up by the command or still buffered, in order |
| Modes.RunConservesKeys | src/Modes/Mode.ts:16-25 | over any series of `input` calls, the keys used up by the commands run, followed by the final buffer, are exactly the starting buffer followed by all keys given, in order |
| Modes.RunAtMostOnePerKey | src/Modes/Mode.ts:16-25 | a series of `input` calls runs no more commands than it was given keys |
| Modes.FeedKeepsUnmatched | src/Modes/Mode.ts:17-23 | if the buffer holds no prefix the mapper knows, one `input` call keeps it so; the command it runs has a key sequence whose shorter prefixes the mapper never matched |
| Modes.RunKeepsUnmatched | src/Modes/Mode.ts:16-25 | the same over any series of `input` calls: the buffer never holds a matched prefix, and every command run is the mapper's answer for the keys it used up, fired at the first key where they matched |
| Modes.RunAccumulatesMisses | src/Modes/Mode.ts:17-21 | while the mapper answers nothing, no command runs and the buffer keeps every key; nothing resets it on a miss |
| Modes.Mode.constructor | src/Modes/Mode.ts:7-10 | a new mode has an empty buffer and has run no command |
| Modes.Mode.Reset | src/Modes/Mode.ts:12-14 | the buffer becomes empty |
| Modes.Mode.Input | src/Modes/Mode.ts:16-25 | the new buffer and the commands run are those `Feed` gives for the old buffer and `key`; the mode invariant is kept |
| Dispatching.SwitchEvents | src/Dispatcher.ts:76-97 | switching to the current mode calls nothing; a real switch enters the new mode exactly once; it first exits the previous mode, and only when there is one; it hands `RecordFinish` with INSERT's recording to the new mode, after `Enter`, exactly when the previous mode is INSERT |
| Dispatching.SwitchAccepted | src/Dispatcher.ts:76-97 | the calls of any switch, from any current mode or none, are a legal order and leave the new mode current |
| Dispatching.AcceptsTracksLastEntered | src/Dispatcher.ts:81-88 | after any legal trace, the mode held as current is the one entered last |
| Dispatching.ModeInstance.constructor | src/Dispatcher.ts:20-25 | a registered mode object carries its own id |
| Dispatching.Dispatcher.CurrentModeId | src/Dispatcher.ts:16-18 | the current mode id is none exactly when there is no current mode, and otherwise the current mode's id |
| Dispatching.Dispatcher.constructor | src/Dispatcher.ts:20-52 | the registry holds one fresh mode object per id, each with its own id; the only call made is `Enter(NORMAL)`, with no exit; NORMAL is current afterwards |
| Dispatching.Dispatcher.SwitchMode | src/Dispatcher.ts:76-97 | the current mode becomes `modes[id]` from the unchanged registry; the trace grows by exactly `SwitchEvents` of the old current mode; the invariant (legal trace, current mode registered) is kept |
| Dispatching.Dispatcher.HandleInput | src/Dispatcher.ts:70-74 | the key is forwarded to the mode current at call time, with `{}` when no arguments are given; the current mode does not change |
| LineMotions.FirstNonBlank | src/Motions/Line.ts:8-12 | the motion has the first-non-blank flag set and no column translation |
| LineMotions.Start | src/Motions/Line.ts:14-18 | the motion has the flag unset and asks for a translation to the line start |
| LineMotions.End | src/Motions/Line.ts:20-24 | the motion has the flag unset and asks for a translation to the line end |
| LineMotions.LeadingWhitespace | src/Motions/Line.ts:37-38 | the count is at most the text length; every character before it is whitespace and the character at it, if any, is not |
| LineMotions.MatchLeadingBlanks | src/Motions/Line.ts:37 | with `IsWhitespace` as JavaScript's `\s` (the ECMAScript WhiteSpace and LineTerminator code points), `/^\s+/` matches exactly when the text starts with whitespace; the match is a non-empty, all-whitespace prefix of the text that cannot be extended |
| LineMotions.Apply | src/Motions/Line.ts:26-41 | the line is kept; without an active editor or without the flag the position is unchanged; with both, the character is the length of the leading whitespace run: at most the line length, whitespace before it, none at it, 0 when the text does not start with whitespace, the line length when the line is all whitespace |
| LineMotions.FirstNonBlankIsUnique | src/Motions/Line.ts:37-40 | the column the first-non-blank motion picks is the one and only column with only whitespace before it and no whitespace at it |

## Left out

- VS Code plumbing in `src/Dispatcher.ts` is not modelled: command registration, the `type` and `replacePreviousChar` interception, `setContext` and the extension's subscriptions. So the mode `name`, which only `setContext` uses, is not modelled either.
- The selection and active-editor listeners are not modelled. This covers the deferred `validateSelections` and the `ActionMode`, `ActionSelection` and `ActionMoveCursor` calls. They are event wiring and timing in files that are not part of this model.
- `dispose` is not modelled. It is resource cleanup.
- What a mode does inside `enter`, `exit`, `onDidRecordFinish` and `input` is not modelled. The concrete modes are not part of this model, so the dispatcher records each call in its trace and nothing more.
- How INSERT fills `recordedCommandMaps` is not modelled. The dispatcher only reads that field.
- Dispatching.Dispatcher.SwitchMode: hands over INSERT's recorded command maps as they stand before the switch. The source reads them after `previousMode.exit()` and `this.currentMode.enter()`. The two agree only if neither call changes INSERT's recording, and the model assumes that because the mode bodies are not part of it.
- The mapper's matching rules and the command bodies are not modelled (`src/Mapper` is not part of this model). The mapper is any pure function of the key buffer; a mapper that keeps its own state is not captured.
- Commands run in the ghost log only. Their effects, and anything they might do to the mode while they run, are not captured.
- Modes.Mode.Input: assumes every command returns normally. If `map.command(map.args)` throws, the source never reaches `reset()`, so the buffer keeps the matched keys and the exception leaves `input`. The model does not capture that path.
- The base `Motion` class, `translate` and `super.apply` are not modelled. The `±Infinity` translations are recorded as a tag, and the result of `super.apply` is an input to `Apply`.
- `window.activeTextEditor` and `document.lineAt` become the optional line-text parameter of `Apply`.
- Argument bundles are maps from names to integers, e.g. `replaceCharCnt`. Other JavaScript object values are not modelled.
