# CHIP-8 SDL front end: a Dafny model of its decision logic

The front end is a small Rust program around an external CHIP-8 machine. It
checks its command line, then either disassembles a program or runs it in an
SDL window. While running, it routes key presses to the machine's hexadecimal
keypad and single-steps the machine when asked. It also starts and stops a
square-wave tone when the machine's sound flag changes, and packs the
monochrome display into an RGBA texture. This project models the parts of
that program that make decisions, apart from the SDL plumbing, and proves
what they promise.

- `results.dfy`, `Results`: Rust's `Option` and `Result`.
- `bytes.dfy`, `Bytes`: `u8`, `u16` and `u32`, and `u32::to_ne_bytes` with the target's byte order as a parameter.
- `run_mode.dfy`, `DebugRunMode`: the five-state debug run mode of `src/run_mode.rs`, with `pause` and `resume`.
  - Neither method writes to its receiver, even though each takes `&mut self`.
  - So both are functions from a mode to `Ok(successor)` or `Err(message)`. The mode they are asked about is unchanged.
- `command_line.dfy`, `CommandLine`: `validate_args`, the choice `main` makes with a valid command line, and the start-address check of the disassembly path.
- `keypad.dfy`, `Keypad`: the sixteen-entry table `default_keyboard_mappings` and its inverse.
- `event_loop.dfy`, `EventLoop`: the local two-state `RunMode` of `src/main.rs`, plus the main loop.
  - The loop covers event dispatch, draining a batch of events, the run gate and the edge-triggered audio toggle.
  - `main_sdl_loop` is modelled in two layers:
    - a method per iteration (`RunIteration`) and one for the loop (`MainSdlLoop`), with `audio_last_state` as a mutable local;
    - the functions `Iteration` and `Session` that specify them, with their properties proved as lemmas.
  - The machine and the audio device are outside the model. What the loop does to them is the trace of calls it makes: `PressKey`, `ReleaseKey`, `Run`, `RunStepDebug`, `ResumeAudio` and `PauseAudio`.
  - Each iteration observes a `Frame`: the events polled, and the value `should_make_sound()` gives once the events have been handled and the machine has run.
- `texture.dfy`, `Texture`: `update_tex`, a method with nested loops over an `array<u8>`, proved to leave exactly `PackedFrame` in the buffer's first `width * height * 4` bytes and to leave the rest alone.

## Model

| member | source | states |
|---|---|---|
| `DebugRunMode.Pause` | src/run_mode.rs:10-16 | Succeeds exactly on a running debug mode (`DebugRunning`, `DebugCond`) and then gives the paused mode of the same kind. Otherwise it fails with "Cannot pause this run mode". |
| `DebugRunMode.Resume` | src/run_mode.rs:18-24 | Succeeds exactly on a paused debug mode (`DebugStep`, `DebugCondStep`) and then gives the running mode of the same kind. Otherwise it fails with "Cannot resume this run mode". |
| `DebugRunMode.PauseTransitions` | src/run_mode.rs:11-14 | `DebugRunning` pauses to `DebugStep` and `DebugCond` to `DebugCondStep`. `Normal`, `DebugStep` and `DebugCondStep` are refused. |
| `DebugRunMode.ResumeTransitions` | src/run_mode.rs:19-22 | `DebugStep` resumes to `DebugRunning` and `DebugCondStep` to `DebugCond`. `Normal`, `DebugRunning` and `DebugCond` are refused. |
| `DebugRunMode.PauseResumeInverse` | src/run_mode.rs:10-24 | `pause(m) = Ok(p)` if and only if `resume(p) = Ok(m)`, so each transition undoes the other in both directions. |
| `DebugRunMode.NormalIsolated` | src/run_mode.rs:10-24 | Both transitions fail on `Normal`, and neither ever yields `Normal`. |
| `DebugRunMode.PauseTwiceFails` | src/run_mode.rs:10-16 | Pausing the result of a successful pause always fails. |
| `DebugRunMode.ResumeTwiceFails` | src/run_mode.rs:18-24 | Resuming the result of a successful resume always fails. |
| `CommandLine.ValidateArgs` | src/main.rs:51-79 | Ok exactly when there are at least two arguments and the count is the one the mode needs: 4 for "D", 3 for "DBG", 2 otherwise. Fewer than two gives the "at least 1" error. Every error reports the count found. |
| `CommandLine.Plan` | src/main.rs:22-48 | `main` goes on exactly when `validate_args` accepts, and a rejection carries `validate_args`'s error unchanged. |
| `CommandLine.PlanCases` | src/main.rs:28-47 | With 4 arguments and "D", disassemble `args[2]` from `args[3]`. With 3 and "DBG", debug `args[2]` in `DebugStep`. With 2, run `args[1]` in `Normal`. The debug mode is chosen exactly for "DBG". |
| `CommandLine.PlanDisassemblesOnlyForD` | src/main.rs:28-37 | An accepted command line disassembles exactly when the mode argument is "D". |
| `CommandLine.DisassemblyOffset` | src/main.rs:33-36 | An address below 0x200 is rejected with the panic's message. Otherwise the offset plus 0x200 is the address, so it does not underflow, and the offset is below 0x10000 - 0x200. |
| `Keypad.DefaultKeyboardMappings` | src/main.rs:225-244 | The table of the sixteen insertions. Every value is a keypad code below 0x10, and Space, Escape and every unlisted key are absent. Its size and injectivity are stated by `TableSize` and `TableIsInjective`. |
| `Keypad.KeyForCode` | src/main.rs:225-244 | Every code 0x0-0xF is the table's value for some key. |
| `Keypad.TableIsInverse` | src/main.rs:227-242 | The table and `KeyForCode` are inverse bijections between the keys in the table and the codes 0x0-0xF. |
| `Keypad.ImageExactly` | src/main.rs:227-242 | For an inverse pair, the keys of the codes below `n` are exactly the keys the table maps below `n`. |
| `Keypad.ImageSize` | src/main.rs:227-242 | For an inverse pair, the codes below `n` give `n` distinct keys. |
| `Keypad.InverseSize` | src/main.rs:225-244 | A table with an inverse over the sixteen keypad codes has exactly sixteen entries. |
| `Keypad.TableSize` | src/main.rs:225-244 | The table has exactly 16 entries. |
| `Keypad.TableIsInjective` | src/main.rs:227-242 | Every value in the table is below 0x10, and `KeyForCode` recovers the key from its value. |
| `Keypad.SameCodeSameKey` | src/main.rs:227-242 | No two keys share a code. |
| `Keypad.TableExamples` | src/main.rs:227-242 | `X` maps to 0x0 and `Num4` to 0xC. Space, Escape and every other key are not in the table. |
| `EventLoop.Lookup` | src/main.rs:165-174 | `keyboard_mappings.get(&k)` gives a code exactly for the keys in the table, and that code is below 0x10 and leads back to `k` through `KeyForCode`. |
| `EventLoop.DispatchEvent` | src/main.rs:156-176 | The loop is left exactly on a quit event (window closed, or Escape pressed). An event makes at most one call. It single-steps exactly when Space is pressed in `DebugStep`. Only key and step calls are made, and a press comes from a key-down and a release from a key-up. |
| `EventLoop.KeyDownPresses` | src/main.rs:165-169 | Pressing a key in the table makes exactly one `press_key` with its code. |
| `EventLoop.KeyUpReleases` | src/main.rs:170-174 | Releasing a key in the table makes exactly one `release_key` with its code. |
| `EventLoop.UnmappedKeyIgnored` | src/main.rs:165-175 | A key outside the table makes no call when released, nor when pressed unless it is Escape or Space. An event without a key code makes no call either. |
| `EventLoop.KeyCallsComeFromTheirKey` | src/main.rs:165-174 | A `press_key(v)` or `release_key(v)` call has `v` below 0x10 and comes from the key the table maps to `v`. |
| `EventLoop.StepKeyGated` | src/main.rs:159-164 | Pressing Space single-steps in `DebugStep` and does nothing in `Normal`. Releasing it does nothing. |
| `EventLoop.DrainAll` | src/main.rs:155-177 | Defines what the `for event in poll_iter()` loop does: each event's calls in turn, up to the first quit event, which ends the batch. It has no contract of its own; its properties are stated by `DrainAllFacts`, `DrainAllAppend` and `QuitDropsLaterEvents`. |
| `EventLoop.DrainAllFacts` | src/main.rs:155-177 | Draining a batch quits exactly when the batch holds a quit event. It makes at most one call per event, only key and step calls, and never a step call in `Normal`. |
| `EventLoop.ThenJoin` | src/main.rs:155-158 | Handling one event and then two batches in turn is the same as handling the event with the first batch and then the second. |
| `EventLoop.DrainAllAppend` | src/main.rs:155-158 | Draining `a + b` is draining `a`, then `b` unless `a` quit. |
| `EventLoop.DrainAllSnoc` | src/main.rs:155-176 | Draining one more event after a batch adds that event's calls and quit, unless the batch already quit. |
| `EventLoop.QuitDropsLaterEvents` | src/main.rs:157-158 | Events polled after a quit event make no call. |
| `EventLoop.DrainEvents` | src/main.rs:155-177 | The `for event in poll_iter()` loop quits and makes calls as `DrainAll` says. |
| `EventLoop.RunGate` | src/main.rs:178-180 | `machine.run()` is called exactly once in `Normal` and not at all in `DebugStep`, and nothing else is called. |
| `EventLoop.AudioGate` | src/main.rs:182-189 | The device is called exactly when the sound flag differs from `audio_last_state`, and then once: `resume` on a rising edge, `pause` on a falling one. Afterwards it plays exactly when the flag is set, and it is never resumed while playing or paused while paused. |
| `EventLoop.DeviceAfterAppend` | src/main.rs:182-189 | The device state after `a + b` is the state after `b` started from the state after `a`. The no-redundant-toggle property splits the same way. |
| `EventLoop.Iteration` | src/main.rs:155-189 | Defines one pass of `'running`: drain the events; unless they quit, the run gate, the audio gate and the new `audio_last_state`. It has no contract of its own; its properties are stated by `IterationGates`, `IterationKeepsDevice` and `IterationTogglesAtEdge`. |
| `EventLoop.IterationTogglesAtEdge` | src/main.rs:182-189 | An iteration makes at most one audio call. It resumes exactly when it did not quit and the flag rose, and pauses exactly when it did not quit and the flag fell. |
| `EventLoop.IterationRunsOnce` | src/main.rs:155-180 | An iteration calls `machine.run()` exactly once when it did not quit and the mode is `Normal`, and never otherwise. |
| `EventLoop.IterationKeepsDevice` | src/main.rs:155-189 | After one iteration the device plays exactly when the new `audio_last_state` says so, and no toggle was redundant. |
| `EventLoop.IterationGates` | src/main.rs:155-189 | An iteration quits exactly when it polled a quit event. `run()` is among its calls exactly when it did not quit and the mode is `Normal`; `IterationRunsOnce` gives the count. It never single-steps in `Normal`. It stores the new sound flag unless it quit. |
| `EventLoop.Session` | src/main.rs:151-203 | Defines the `'running` loop over a run of frames, from a given `audio_last_state`, until an iteration quits. It has no contract of its own; its properties are stated by `SessionKeepsDevice`, `SessionRunsOnlyInMode`, `SteadySoundIsSilent` and `SessionStopsAtQuit`. |
| `EventLoop.SessionKeepsDevice` | src/main.rs:151-203 | Over any run of iterations, starting from `audio_last_state`, the device ends up as the final `audio_last_state` says and is never toggled redundantly. |
| `EventLoop.SessionRunsOnlyInMode` | src/main.rs:159-180 | In a whole session, `run()` is never called in `DebugStep`, and `run_step_debug()` is never called in `Normal`. |
| `EventLoop.IterationSteadySound` | src/main.rs:182-189 | An iteration whose sound flag equals the remembered state makes no audio call and keeps that state. |
| `EventLoop.SteadySoundIsSilent` | src/main.rs:182-189 | While every reading of the sound flag equals the remembered state, the audio device is never called and the state is kept. |
| `EventLoop.SessionStopsAtQuit` | src/main.rs:153-158 | After the iteration that quits, later frames change nothing. |
| `EventLoop.SessionSnoc` | src/main.rs:151-203 | A session over one more frame runs one more iteration from the remembered sound state, unless it had already quit. |
| `EventLoop.SessionAfterIteration` | src/main.rs:151-203 | If the first `i` iterations did not quit, iteration `i` extends the trace by its calls. If it quits, the whole session ends there. |
| `EventLoop.RunIteration` | src/main.rs:155-189 | One pass of the `'running` loop does what `Iteration` says. |
| `EventLoop.MainSdlLoop` | src/main.rs:142-204 | The loop, with `audio_last_state` starting false, does what `Session` says over the frames it is given. |
| `Bytes.ToNeBytes` | src/main.rs:218 | `to_ne_bytes` gives four bytes, least significant first on a little-endian target and most significant first on a big-endian one. That they encode the colour is stated by `FromToNeBytes` and `ToFromNeBytes`. |
| `Bytes.FromToNeBytes` | src/main.rs:218 | Decoding the four native-order bytes of a colour gives back the colour, in either byte order. |
| `Bytes.ToFromNeBytes` | src/main.rs:218 | Every four bytes are the native-order encoding of exactly one colour. |
| `Texture.ColorAt` | src/main.rs:212-216 | The colour copied for cell `(x, y)`: `color_on` if its pixel is set, else `color_off`. It has no contract of its own; `PackedFrame` and `CellBytes` state where it ends up. |
| `Texture.PixelIndex` | src/main.rs:217 | The four bytes of cell `(x, y)` starting at `(x + y * width) * 4` lie inside the `width * height * 4` frame. |
| `Texture.CellsDisjoint` | src/main.rs:210-218 | Distinct cells are given disjoint 4-byte slices. |
| `Texture.CellOf` | src/main.rs:210-218 | Every byte of the frame belongs to some cell, so the whole frame is written. |
| `Texture.PackedFrame` | src/main.rs:206-223 | The frame has `width * height * 4` bytes. Byte `j` of cell `(x, y)` is byte `j` of the native encoding of `color_on` if the pixel is set, else of `color_off`. |
| `Texture.CellBytes` | src/main.rs:217-218 | The 4-byte slice of cell `(x, y)` is the native encoding of its colour. |
| `Texture.CellSlice` | src/main.rs:217-218 | A frame whose four bytes of cell `(x, y)` are given one by one holds them as the slice starting at `(x + y * width) * 4`. |
| `Texture.FrameByteOfCell` | src/main.rs:210-218 | The byte at index `(x + y * width) * 4 + j` is byte `j` of the colour of cell `(x, y)`. |
| `Texture.CellNumber` | src/main.rs:217 | Row-major numbering is invertible: `x + y * width` gives back `x` and `y`. |
| `Texture.CopyFromSlice` | src/main.rs:218 | `copy_from_slice` writes the four bytes at the given index and no other byte. |
| `Texture.UpdateTex` | src/main.rs:206-223 | The buffer's first `width * height * 4` bytes become `PackedFrame` and the rest are unchanged. |

## Left out

- SDL setup, the window, the canvas and its presentation, texture creation, `with_lock` and the sleep at the end of each iteration are not modelled. They are windowing and OS plumbing. Events are an input sequence per iteration, and "the frames run out" stands for the loop running until the program is stopped.
- The redraw pacing (`draw_timer`, an external `Timer` with a floating-point 1/60 s interval) is not modelled. `UpdateTex` is modelled on its own, with the colours as parameters.
- The colours come from `Color::to_u32` on the texture's pixel format, an SDL call, so they are parameters.
- The external machine is not modelled: instruction execution, `should_make_sound`, `display_data` and `disassemble_program_at`. The loop's effect on it is the call trace. `should_make_sound()` is read as one value per iteration, since nothing changes the machine between its three reads.
- The debug printout of `run_step_debug` is not modelled. It is console I/O.
- The `audio` module and the square wave are not modelled. They are not part of this model and run on SDL's audio thread. The device is taken to start paused, as SDL opens audio devices.
- Reading the program file and `u16::from_str_radix` are not modelled. `DisassemblyOffset` takes the parsed `u16`, and an unparsable address or unreadable file (the panics of `expect` and `unwrap`) is not modelled.
- CommandLine.ValidateArgs: the error is the pair of expected and found counts, not the formatted usage string `error_msg` builds.
- Texture.UpdateTex: the `pitch` argument of `with_lock` is ignored, as the source ignores it. Rows are taken to be `width * 4` bytes apart, and the buffer is required to hold at least `width * height * 4` bytes, or the Rust slice indexing would panic.
- Bytes.ToFromNeBytes: `to_ne_bytes` depends on the platform, so the byte order is a parameter (`ByteOrder`) and every result holds for both orders.
- The texture's width and height conversions with `try_into().unwrap()` in `run_sdl` are not modelled; they belong to the left-out texture creation.
