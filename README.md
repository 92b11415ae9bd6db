# Error messages of rust-bite's debugger and GUI

This project models how rust-bite turns its errors into text. Two `Debug`
implementations are covered:

- the Linux debugger's error taxonomy (`InvalidPathName`,
  `IncompleteRead(req, res)`, `IncompleteWrite(req, res)`, `Kernel(err)`),
  rendered in `debugger/src/linux/fmt.rs`;
- the GUI's `Error` enum (`WindowCreation`, `SurfaceCreation`,
  `AdapterRequest`, `DeviceRequest`, `InvalidTextureId`, `PngDecode`,
  `PngFormat`, `NotFound`, `Exit`), rendered in `src/gui/mod.rs`.

Each error becomes one sentence. Byte counts are written in decimal, the way
Rust's `Display` for `usize` writes them. That is modelled by `Decimal.Dec`.
Foreign values are opaque inputs:

- the operating-system error inside `Kernel` is its display text;
- the path inside `NotFound` is the text `Path::display` gives;
- the texture id inside `InvalidTextureId` is its `Debug` text;
- the two wgpu errors are type parameters, because their text is never written.

Every rendering has a decoder as its partner (`LinuxFmt.Decode`,
`GuiError.Decode`). Each decoder is proved sound: whatever it returns
renders back to the input string. It is also proved to read back every
message that rendering writes. Together these give the exact message shapes,
injectivity in the numeric payloads, the path and the texture id, and the
fact that two different variants never share a message. `Kernel` is the
exception, and it is proved to be one: any message at all is also the
message of some `Kernel` error.

Files: `wrappers.dfy` (`Option`), `text.dfy` (prefix and suffix stripping),
`decimal.dfy` (`Usize`, decimal text and its reading), `linux_fmt.dfy`
(module `LinuxFmt`), `gui_error.dfy` (module `GuiError`).

## Model

| member | source | states |
|---|---|---|
| `Decimal.Dec` | debugger/src/linux/fmt.rs:8 | the decimal text of a count is non-empty and made of digits only; it starts with `0` exactly when the count is zero, and zero is written `0` alone |
| `Decimal.ValueOfDec` | debugger/src/linux/fmt.rs:8-11 | reading the decimal text of `n` back gives `n` |
| `Decimal.DecInjective` | debugger/src/linux/fmt.rs:8-11 | two different counts never have the same decimal text |
| `Decimal.ReadUsize` | debugger/src/linux/fmt.rs:8-11 | proof partner with no counterpart in the source, which never parses its messages: a number read off the front of a string is one that `Dec` writes, and the text after it does not start with a digit |
| `Decimal.ReadUsizeOfDec` | debugger/src/linux/fmt.rs:8-11 | a `usize` written by `Dec` and followed by a non-digit is read back with the text after it |
| `LinuxFmt.Render` | debugger/src/linux/fmt.rs:5-14 | every one of the four kinds has a message, and every message ends with `.` |
| `LinuxFmt.ParseCounts` | debugger/src/linux/fmt.rs:7-12 | proof partner with no counterpart in the source: counts found in a string rebuild exactly that string as `prefix + dec(req) + middle + dec(res) + "."` |
| `LinuxFmt.ParseCountsOfCounts` | debugger/src/linux/fmt.rs:7-12 | both counts are recovered from such a sentence when the middle text starts with a non-digit |
| `LinuxFmt.Decode` | debugger/src/linux/fmt.rs:5-14 | proof partner with no counterpart in the source, the inverse of the rendering: a decoded error is never `Kernel` and renders to exactly the decoded string |
| `LinuxFmt.DecodeRender` | debugger/src/linux/fmt.rs:6-12 | the message of `InvalidPathName`, `IncompleteRead(req, res)` or `IncompleteWrite(req, res)` decodes to that same error |
| `LinuxFmt.DecodeIncompleteRead` | debugger/src/linux/fmt.rs:7-9 | the message `Tried to read <req> bytes, only read <res>.` is not the invalid-path sentence and decodes back to `IncompleteRead` with the same counts |
| `LinuxFmt.DecodeIncompleteWrite` | debugger/src/linux/fmt.rs:10-12 | the message `Tried to write <req> bytes, only wrote <res>.` is neither the invalid-path sentence nor a read message, and decodes back to `IncompleteWrite` with the same counts |
| `LinuxFmt.RenderInjective` | debugger/src/linux/fmt.rs:6-12 | apart from `Kernel`, equal messages mean equal errors: kinds never share a message and different `(req, res)` pairs never do |
| `LinuxFmt.KernelDescriptionRecovered` | debugger/src/linux/fmt.rs:13 | a `Kernel` message is the native description followed by exactly one `.`, with nothing before it |
| `LinuxFmt.KernelMayImitate` | debugger/src/linux/fmt.rs:13 | every message of any kind is also the message of some `Kernel` error |
| `LinuxFmt.InvalidPathNameIsEscaped` | debugger/src/linux/fmt.rs:6 | the invalid-path sentence quotes a backslash followed by `0` right after `There appears to be a `, and holds no NUL character |
| `GuiError.Render` | src/gui/mod.rs:61-85 | the message is empty exactly when the error is `Exit` |
| `GuiError.Enclosed` | src/gui/mod.rs:72-81 | proof partner with no counterpart in the source: text found between a prefix and a suffix rebuilds the string it came from |
| `GuiError.Decode` | src/gui/mod.rs:63-83 | proof partner with no counterpart in the source, the inverse of the rendering: a decoded variant renders to exactly the decoded string |
| `GuiError.DecodeRender` | src/gui/mod.rs:63-83 | every message decodes to the variant that wrote it, with its path or texture id |
| `GuiError.DecodeNotFound` | src/gui/mod.rs:79-81 | `Failed to find path: '<path>'` is not any fixed sentence and decodes to `NotFound` with that path |
| `GuiError.DecodeInvalidTextureId` | src/gui/mod.rs:72-74 | `Egui texture id '<id>' was invalid.` is neither a fixed sentence nor a path message and decodes to `InvalidTextureId` with that id |
| `GuiError.RenderDeterminesShape` | src/gui/mod.rs:64-81 | equal messages mean the same variant with the same path or texture id, so the six fixed sentences are pairwise distinct |
| `GuiError.PayloadIgnored` | src/gui/mod.rs:65-71 | `SurfaceCreation` and `DeviceRequest` give the same message whatever wgpu error they carry |
| `GuiError.NotFoundQuotesPath` | src/gui/mod.rs:79-81 | the path is written unchanged between two single quotes, at the end of the message |
| `GuiError.TextureIdQuoted` | src/gui/mod.rs:72-74 | the texture id's debug text is written unchanged between two single quotes |

## Left out

- The Linux `Error` enum's declaration is not part of this model (its file is not among those modelled); the counts are taken to be `usize`, the type `read_process_memory` uses in debugger/src/macos.rs:52, on a 64-bit target.
- How the operating system describes an error, how `Path::display` writes a path and how egui's `TextureId` is debug-printed are foreign code; each is an input string.
- The `fmt::Formatter` sink and its `fmt::Result` are not modelled: rendering is a function that returns the string. The GUI's `Exit` arm returns `Ok(())` without writing anything, which is the empty string here.
- The process tracing backend (spawn, attach, the run loop, pause, kill, detach and memory access) is not part of this model. Its code is not among the files modelled.
- The macOS backend is not modelled. Every one of its operations panics with `todo!()`, and its `Error` enum has no variants.
- The rest of src/gui/mod.rs (windowing, GPU rendering, docking tabs, disassembly threads, atomics) is user-interface code and is not modelled.
- tokenizing/src/lib.rs (floating-point colour constants and a wrapper over the glyph renderer) and src/main.rs (command-line plumbing and file I/O) are not modelled.
