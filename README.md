# walle_poc in Dafny

A model of the interaction logic of a chat-platform bot that runs as a serverless webhook, with proofs about that model. The bot:

- authenticates every inbound callback by its Ed25519 signature over the timestamp and the body;
- dispatches on the interaction type;
- has a command module with three commands (`ping`, `pong`, `run`). `run` takes the first fenced code block of the message it was invoked on and sends it to a remote compile-and-run service: the Rust playground, or a generic multi-language service. It then normalizes the service's reply and checks the reply against the platform's size limits.

The network, JSON (de)serialization and the cryptography are cut away:

- The two remote services are a parameter `Commands.Backends`: two functions from the request map to the decoded response record. `None` means the POST or the decoding failed.
- Ed25519 verification is a parameter `verify(key, message, signature)`, and the public key is a parameter too.
- The interaction payload arrives already decoded.

Wherever the Rust code calls `unwrap` on something that can be absent, or indexes past an array, the model gives an explicit panic outcome:

- `Commands.Outcome.Panic`;
- `Validator.AuthError.SignatureOverflow`;
- `Gateway.Reply.Panicked`.

Modules:

- `Wrappers`, `Results`: `Option` and `Result`.
- `Primitives`: `byte` and `i32`.
- `Ascii`: `\w`, ASCII lower-casing, and character counting.
- `Utf8`: UTF-8 encoding. It gives the bytes behind `as_bytes` and the byte count behind `String::len`.
- `Hex`: the `hex` crate's decoder (Base16, section 8 of RFC 4648), with an encoder as its inverse.
- `Json`: decoded JSON values.
- `Discord`: the interaction records of `main/src/discord.rs` and the resolved-message lookup.
- `CodeBlock`: the pattern ```` ```(\w*)\n([\w\W]*)``` ```` of `main/src/commands.rs`. It is written as a scanner over `seq<char>` and proved to return the leftmost-first match.
- `Commands`: the rest of `main/src/commands.rs`: classification, the context-menu gate, routing, the two backends' request and response handling, and output validation.
- `Validator`: `src/validator.rs`. Header lookup, hex decoding, the byte-by-byte copy into the 64-byte signature array (a method with a loop), the signed message, and the verdict.
- `Gateway`: `handler` of `main/src/main.rs`. The signature gate, the default interaction, and the match on the interaction type.

Behaviour of the code worth noting:

- Every command, `ping` and `pong` included, needs a resolved message (`main/src/commands.rs:33`). Without one, all three give the context-menu error.
- Only the first code block is used. A message with no code block panics (`unwrap`). There is no "no code block" error, no concatenation of several blocks, and no ephemeral flag.
- The line limit counts the newlines of the raw output (fewer than 25). The size limit counts the UTF-8 bytes of the wrapped output (fewer than 2000).
- A decoded signature shorter than 64 bytes is zero-padded, not rejected. A longer one makes the copy loop index out of bounds.
- In this version the handler never calls the command module. A command interaction (type 2) is always answered `"Pong!"` with `tts` set to true.

## Model

| member | source | states |
|---|---|---|
| `Discord.GetContent` | main/src/discord.rs:22-32 | None exactly when there is no resolved data or its message map is empty; otherwise the content of some message of the map |
| `Discord.GetContentSingle` | main/src/discord.rs:27-30 | with exactly one resolved message, the lookup yields that message's content |
| `CodeBlock.WordRunEnd` | main/src/commands.rs:46 | the end of the maximal run of word characters (the greedy `\w*`) |
| `CodeBlock.LastFence` | main/src/commands.rs:46 | the last position in a range where a closing fence starts, or None when there is none |
| `CodeBlock.MatchAtShape` | main/src/commands.rs:46 | at an opening fence, a match must take the maximal word run as its tag, followed by a newline; any later fence can close the body |
| `CodeBlock.FindFrom` | main/src/commands.rs:48 | the scanner of `captures_iter(..).next()`: a capture it returns starts at a fence at or after the position it starts from, and the whole match fits in the text |
| `CodeBlock.FindFromCorrect` | main/src/commands.rs:46-48 | the scan from position i returns the first match starting at or after i, with the regex's preferred tag and longest body; None when no match starts there or later |
| `CodeBlock.Extract` | main/src/commands.rs:46-50 | None exactly when the pattern matches nowhere; otherwise the leftmost match, a unique tag, the body up to the last closing fence, and the two capture groups as slices of the text |
| `CodeBlock.ExtractTagIsWord` | main/src/commands.rs:46-49 | a captured tag consists of word characters only |
| `CodeBlock.ExtractRustExample` | main/src/commands.rs:166 | the test message's match starts at 0, with tag `rust` and body `fn main() {\nprintln!("Hello");\n}\n` |
| `Commands.NewCommand` | main/src/commands.rs:20-30 | a command exactly for the names ping, pong and run, carrying the data unchanged and the kind whose name it is |
| `Commands.NewCommandName` | main/src/commands.rs:20-30 | classifying a command's own name gives back that command |
| `Commands.OtherRequest` | main/src/commands.rs:93-97 | the generic request has exactly the keys code, codeId, input and language, with the code, two empty strings and the language |
| `Commands.BuildOtherRequest` | main/src/commands.rs:92-97 | the successive inserts build that request |
| `Commands.RustRequest` | main/src/commands.rs:131-138 | the playground request has exactly the seven keys: stable channel, debug mode, edition 2021, bin crate, no tests, no backtrace, and the code |
| `Commands.BuildRustRequest` | main/src/commands.rs:130-138 | the successive inserts build that request |
| `Commands.NormalizeOther` | main/src/commands.rs:110-118 | Ok with the output exactly when success is true and the output is present; a panic when success is true without output; the code-failed error exactly when success is false; the API error exactly when success is absent |
| `Commands.NormalizeRust` | main/src/commands.rs:151-157 | never an error value; a present error field is the output; otherwise stdout (placeholder "stdout") on success and stderr (placeholder "stderr") on failure; a panic exactly when both error and success are absent |
| `Commands.RunOther` | main/src/commands.rs:92-119 | a panic exactly when the request fails; an Ok value is the service's output field; errors are only the code-failed or API error; a decoded reply gives its normalized form |
| `Commands.RunRust` | main/src/commands.rs:130-158 | never an error value; a panic when the request fails; otherwise the normalized reply |
| `Commands.Dispatch` | main/src/commands.rs:68-76 | on the lower-cased tag: rust goes to the playground; c, go, cpp, java, cs and r go to the generic service under the tag as written; js/javascript, ts/typescript and py/python go to it as node, ts and py; the empty tag means no language; everything else is unsupported |
| `Commands.DispatchIgnoresCase` | main/src/commands.rs:68 | two tags with the same lower-case form are routed alike, except for pass-through tags, which keep their spelling |
| `Commands.DispatchGenericLanguage` | main/src/commands.rs:70-73 | the generic service is only ever asked for a pass-through language or for node, ts or py |
| `Commands.RunCode` | main/src/commands.rs:67-77 | the empty tag gives exactly the no-language error with its hint; an unsupported tag gives exactly the unsupported error; otherwise the routed backend's result; errors are only the routing and backend errors |
| `Commands.Wrap` | main/src/commands.rs:55 | the output between an opening and a closing fence line, eight characters longer, with the output unchanged in the middle |
| `Commands.WrapNewlines` | main/src/commands.rs:55 | the wrapping fence adds exactly two newlines |
| `Commands.ValidateOutput` | main/src/commands.rs:54-64 | Ok exactly when the output has fewer than 25 newlines and its wrapped form fewer than 2000 bytes, and then the value is the wrapped output; the line check comes first; errors are the two fixed messages, never the output |
| `Commands.RunCodeCommand` | main/src/commands.rs:45-65 | panics when no code block matches; a routing or backend failure is passed on unchanged; a successful backend output is validated, so the answer is exactly `ValidateOutput` of it; an Ok answer is the wrapped output with fewer than 27 newlines and fewer than 2000 bytes; every error is one of the fixed messages |
| `Commands.RunCommand` | main/src/commands.rs:32-42 | without resolved content every command gives the context-menu error; with content, ping gives "Pong!", pong gives "Ping!", and run runs the code command on that content |
| `Commands.RunOnSingleMessage` | main/src/commands.rs:33-37 | `run` invoked on a single message runs that message's code block |
| `Commands.RunValidRust` | main/src/commands.rs:164-171 | the source's Rust test: given a playground that prints Hello, the answer is the fenced "Hello" |
| `CodeBlock.ExtractPythonExample` | main/src/commands.rs:175 | the Python test's match starts at 0, with tag `py` and body `print("Hello")\n` |
| `Commands.RunValidPython` | main/src/commands.rs:173-180 | the source's Python test: given a generic service that prints Hello for `py`, the answer is the fenced "Hello" |
| `Commands.RunNoLanguage` | main/src/commands.rs:182-189 | the source's tagless test gives exactly the no-language error, whatever the backends do |
| `Commands.RunUnsupported` | main/src/commands.rs:191-198 | the source's `random_lang` test gives exactly the unsupported error, whatever the backends do |
| `Commands.ValidAsciiOutput` | main/src/commands.rs:54-64 | a short ASCII output with few lines passes validation wrapped |
| `Commands.WrapAsciiBytes` | main/src/commands.rs:60 | wrapping an ASCII output adds eight bytes |
| `Ascii.Lower` | main/src/commands.rs:68 | same length; every character lower-cased |
| `Ascii.LowerIdempotent` | main/src/commands.rs:68 | lower-casing twice is lower-casing once; no upper-case letter remains |
| `Ascii.CountChar` | main/src/commands.rs:54 | the count is at most the length, and zero exactly when the character does not occur |
| `Ascii.CountCharConcat` | main/src/commands.rs:54-55 | counts add up over concatenation |
| `Utf8.EncodeChar` | main/src/commands.rs:60 | one to four bytes with UTF-8's lead-byte classes and continuation bytes; one byte exactly for ASCII |
| `Utf8.Encode` | main/src/commands.rs:60 | between one and four bytes per character |
| `Utf8.EncodeConcat` | src/validator.rs:33-38 | encoding distributes over concatenation |
| `Utf8.EncodeAscii` | main/src/commands.rs:60 | an ASCII string is its own encoding |
| `Hex.DecodeFrom` | src/validator.rs:19 | Ok exactly when every remaining character is a hex digit, with one byte per digit pair; otherwise the first non-digit and its index |
| `Hex.Decode` | src/validator.rs:19 | odd length is refused first; Ok exactly for an even-length string of hex digits, with half as many bytes |
| `Hex.DecodeEncode` | src/validator.rs:19 | decoding undoes encoding |
| `Validator.HeaderIndex` | src/validator.rs:16-18 | the first header whose name matches, ignoring case |
| `Validator.GetHeader` | src/validator.rs:28-30 | None exactly when no header name matches, ignoring case; otherwise the value of a matching header |
| `Validator.GetHeaderIgnoresCase` | src/validator.rs:16-18 | header lookup depends only on the lower-cased name |
| `Validator.Padded` | src/validator.rs:21-24 | 64 bytes: the decoded bytes first, then zeros |
| `Validator.PaddedFull` | src/validator.rs:21-24 | 64 decoded bytes are the signature unchanged |
| `Validator.CopySignature` | src/validator.rs:21-24 | the copy loop fails exactly when more than 64 bytes are decoded; otherwise the array holds the zero-padded bytes |
| `Validator.SignedMessage` | src/validator.rs:33-38 | the timestamp bytes followed by the body's bytes, no delimiter, lengths adding up |
| `Validator.Verdict` | src/validator.rs:5-46 | a missing signature header, bad hex or more than 64 bytes are refused before the timestamp header is looked at; then a missing timestamp, then a non-text body; Ok exactly when verify holds of the key, the signed message and the padded signature |
| `Validator.ValidateDiscordSignature` | src/validator.rs:5-46 | the imperative check, with the copy loop, gives exactly the verdict |
| `Gateway.Interaction` | main/src/main.rs:37-40 | the decoded interaction when there is one; otherwise the default interaction: type 0, no data, empty ids |
| `Gateway.Route` | main/src/main.rs:43-85 | type 1 gives 200 with `{"type":1}`; type 2 gives 200, JSON content type and the fixed "Pong!" message, and panics without data; every other type gives 404 with `{"error":"Not implemented."}` |
| `Gateway.Handler` | main/src/main.rs:32-89 | a failed signature check yields no response: a signature over 64 bytes is a panic, any other failure is returned as that error; after a passing one, the routed reply to the decoded interaction, or to the default interaction |
| `Gateway.UnauthenticatedIgnoresPayload` | main/src/main.rs:34 | the reply to an unauthenticated request does not depend on its payload |
| `Gateway.UndecodablePayloadNotImplemented` | main/src/main.rs:37-40 | an authenticated request with a missing or undecodable payload gets the 404 answer |
| `Gateway.CommandAnswerIgnoresName` | main/src/main.rs:57-76 | a command interaction is answered "Pong!" whatever command it names |

## Left out

- The two POSTs (main/src/commands.rs:99-108, 140-149) are the parameter `Backends`. A failed request or an undecodable reply is `None`, which the model turns into a panic. Endpoints, transport and timeouts are not modelled.
- Ed25519 and key handling are not modelled:
  - Ed25519 verification is the parameter `verify`.
  - Reading `DISCORD_PUBLIC_KEY` from the environment and `PublicKey::from_bytes` (src/validator.rs:6-13) are replaced by the `key` parameter.
  - `Signature::from_bytes` and its `unwrap` (src/validator.rs:25-27) are taken to accept every 64-byte array. Any check it makes on the bytes is folded into `verify`.
- serde decoding of the payload is not modelled: `Gateway.Request.payload` is its result. Serializing the JSON answers is not modelled either: bodies are `Json` values, and the order of keys in the serialized text is not represented.
- The response builder's `map_err(Box::new)?` (main/src/main.rs:55, 75, 83) is not modelled. With fixed status codes and headers it cannot fail.
- The `println!` logging in main/src/main.rs carries no behaviour and is not modelled.
- `\w` and `to_lowercase` are restricted to ASCII. Rust's Unicode word characters and Unicode case mapping are not modelled.
- Discord.GetContent: the order in which the hash map yields its values is not modelled. The contract only says the content comes from some message of the map. For the same reason the function is ghost, and so are `Commands.RunCommand` and everything that calls it.
- `async`/`await` and concurrency: each call is modelled as one synchronous evaluation.
- register/src/main.rs and register_test/index.js are one-shot command-registration clients; they are not part of this model.
- src/main.rs is a stub that always answers "Pong!"; it is not part of this model.
