/**
 * The bot's commands: classification of the command name, the context-menu gate, and for `run`
 * the pipeline code block -> backend -> output validation.
 *
 * The two remote execution services are parameters (`Backends`): each takes the JSON request
 * map and returns the decoded response record, or None when the POST or the decoding failed.
 * Where the source unwraps a value that may be absent, the model returns `Panic`.
 */
module Commands {
  import opened Wrappers
  import opened Json
  import opened Discord
  import Ascii
  import Utf8
  import CodeBlock

  datatype CommandType = Ping | Pong | Run

  /** A classified command, bound to the interaction data it was classified from. */
  datatype Command = Command(commandType: CommandType, data: InteractionData)

  /** Places where the source unwraps a value that can be absent. */
  datatype PanicSite = NoCodeBlock | RequestFailed | MissingOutput | MissingSuccess

  /** `Result<String, String>` of the source, with a panic as a third outcome. */
  datatype Outcome = Ok(value: string) | Err(message: string) | Panic(site: PanicSite)

  const ContextMenuError := "ERROR: This command can only be used through the context menu on a message containing a code block. Use the ... in the upper right corner of the message, Apps -> Run."
  const NoLanguageError := "ERROR: No language specified.\nHint: ```<language>"
  const UnsupportedError := "ERROR: Unsupported language."
  const TooManyLinesError := "ERROR: Output contained too many lines."
  const TooManyCharsError := "ERROR: Output contained too many characters."
  const CodeFailedError := "ERROR: Code failed."
  const ApiError := "ERROR: API Error."

  /** Outputs with this many newlines or more are refused. */
  const MaxNewlines := 25
  /** Wrapped outputs with this many bytes or more are refused (the platform's message limit). */
  const MaxBytes := 2000

  // ---------------------------------------------------------------- classification

  /** The registered name of each command. */
  function Name(t: CommandType): string {
    match t
    case Ping => "ping"
    case Pong => "pong"
    case Run => "run"
  }

  /** `Command::new`: a command exactly for the three registered names, keeping `data` as it is. */
  function NewCommand(data: InteractionData): (r: Option<Command>)
    ensures r.Some? <==> data.name in {"ping", "pong", "run"}
    ensures r.Some? ==> r.value.data == data && Name(r.value.commandType) == data.name
  {
    match data.name
    case "ping" => Some(Command(Ping, data))
    case "pong" => Some(Command(Pong, data))
    case "run" => Some(Command(Run, data))
    case _ => None
  }

  /** Classifying a command's own name gives back that command. */
  lemma NewCommandName(t: CommandType, data: InteractionData)
    requires data.name == Name(t)
    ensures NewCommand(data) == Some(Command(t, data))
  {
  }

  // ---------------------------------------------------------------- backends

  datatype OtherData = OtherData(output: Option<string>)
  datatype OtherApiResponse = OtherApiResponse(success: Option<bool>, data: OtherData)
  datatype RustApiResponse = RustApiResponse(success: Option<bool>, stdout: Option<string>, stderr: Option<string>, error: Option<string>)

  datatype Backends = Backends(
    rust: map<string, Json> -> Option<RustApiResponse>,
    other: map<string, Json> -> Option<OtherApiResponse>)

  /** The request body `run_other` posts to the multi-language service. */
  function OtherRequest(language: string, code: string): (m: map<string, Json>)
    ensures m.Keys == {"code", "codeId", "input", "language"}
    ensures m["code"] == JStr(code) && m["language"] == JStr(language)
    ensures m["codeId"] == JStr("") && m["input"] == JStr("")
  {
    map["code" := JStr(code), "codeId" := JStr(""), "input" := JStr(""), "language" := JStr(language)]
  }

  /** `run_other`'s request, built by successive inserts. */
  method BuildOtherRequest(language: string, code: string) returns (m: map<string, Json>)
    ensures m == OtherRequest(language, code)
  {
    m := map[];
    m := m["code" := JStr(code)];
    m := m["codeId" := JStr("")];
    m := m["input" := JStr("")];
    m := m["language" := JStr(language)];
  }

  /** The request body `run_rust` posts to the Rust playground: fixed settings plus the code. */
  function RustRequest(code: string): (m: map<string, Json>)
    ensures m.Keys == {"channel", "mode", "edition", "crateType", "tests", "code", "backtrace"}
    ensures m["code"] == JStr(code)
    ensures m["channel"] == JStr("stable") && m["mode"] == JStr("debug") && m["edition"] == JStr("2021")
    ensures m["crateType"] == JStr("bin") && m["tests"] == JBool(false) && m["backtrace"] == JBool(false)
  {
    map["channel" := JStr("stable"), "mode" := JStr("debug"), "edition" := JStr("2021"), "crateType" := JStr("bin"),
        "tests" := JBool(false), "code" := JStr(code), "backtrace" := JBool(false)]
  }

  /** `run_rust`'s request, built by successive inserts. */
  method BuildRustRequest(code: string) returns (m: map<string, Json>)
    ensures m == RustRequest(code)
  {
    m := map[];
    m := m["channel" := JStr("stable")];
    m := m["mode" := JStr("debug")];
    m := m["edition" := JStr("2021")];
    m := m["crateType" := JStr("bin")];
    m := m["tests" := JBool(false)];
    m := m["code" := JStr(code)];
    m := m["backtrace" := JBool(false)];
  }

  /** The generic service's reply: its output on success, a fixed error otherwise. */
  function NormalizeOther(resp: OtherApiResponse): (r: Outcome)
    ensures r.Ok? <==> resp.success == Some(true) && resp.data.output.Some?
    ensures r.Ok? ==> r.value == resp.data.output.value
    ensures r.Panic? <==> resp.success == Some(true) && resp.data.output.None?
    ensures resp.success == Some(false) <==> r == Err(CodeFailedError)
    ensures resp.success.None? <==> r == Err(ApiError)
  {
    match resp.success
    case Some(success) =>
      if success then
        match resp.data.output
        case Some(output) => Ok(output)
        case None => Panic(MissingOutput)
      else Err(CodeFailedError)
    case None => Err(ApiError)
  }

  /**
   * The playground's reply: a reported error wins; otherwise stdout on success and stderr on
   * failure, each with its field name as placeholder. It never yields `Err`: the source returns
   * a plain string, so compile errors reach the user as output.
   */
  function NormalizeRust(resp: RustApiResponse): (r: Outcome)
    ensures !r.Err?
    ensures r.Panic? <==> resp.error.None? && resp.success.None?
    ensures resp.error.Some? ==> r == Ok(resp.error.value)
    ensures resp.error.None? && resp.success == Some(true) ==> r == Ok(resp.stdout.UnwrapOr("stdout"))
    ensures resp.error.None? && resp.success == Some(false) ==> r == Ok(resp.stderr.UnwrapOr("stderr"))
  {
    if resp.error.Some? then Ok(resp.error.UnwrapOr("error is some"))
    else
      match resp.success
      case None => Panic(MissingSuccess)
      case Some(success) =>
        if success then Ok(resp.stdout.UnwrapOr("stdout")) else Ok(resp.stderr.UnwrapOr("stderr"))
  }

  /** `run_other`: one POST to the generic service, then normalization. */
  function RunOther(language: string, code: string, api: Backends): (r: Outcome)
    ensures api.other(OtherRequest(language, code)).None? <==> r == Panic(RequestFailed)
    ensures r.Ok? ==>
              && api.other(OtherRequest(language, code)).Some?
              && api.other(OtherRequest(language, code)).value.data.output == Some(r.value)
    ensures r.Err? ==> r.message in {CodeFailedError, ApiError}
    ensures api.other(OtherRequest(language, code)).Some? ==> r == NormalizeOther(api.other(OtherRequest(language, code)).value)
  {
    match api.other(OtherRequest(language, code))
    case None => Panic(RequestFailed)
    case Some(resp) => NormalizeOther(resp)
  }

  /** `run_rust`: one POST to the playground, then normalization. */
  function RunRust(code: string, api: Backends): (r: Outcome)
    ensures !r.Err?
    ensures api.rust(RustRequest(code)).None? ==> r == Panic(RequestFailed)
    ensures api.rust(RustRequest(code)).Some? ==> r == NormalizeRust(api.rust(RustRequest(code)).value)
  {
    match api.rust(RustRequest(code))
    case None => Panic(RequestFailed)
    case Some(resp) => NormalizeRust(resp)
  }

  // ---------------------------------------------------------------- routing

  /** Where a language tag is sent. */
  datatype Target = Playground | Generic(language: string) | NoLanguage | Unsupported

  /** Aliases the generic service takes under the tag as the user wrote it. */
  const PassThrough: set<string> := {"c", "go", "cpp", "java", "cs", "r"}

  /** Aliases the generic service knows under another name. */
  const Renamed: map<string, string> :=
    map["js" := "node", "javascript" := "node", "ts" := "ts", "typescript" := "ts", "py" := "py", "python" := "py"]

  /** The routing table of `run_code`, on the lower-cased tag. */
  function Dispatch(tag: string): (t: Target)
    ensures t == Playground <==> Ascii.Lower(tag) == "rust"
    ensures t == NoLanguage <==> tag == ""
    ensures t.Generic? <==> Ascii.Lower(tag) in PassThrough || Ascii.Lower(tag) in Renamed
    ensures t.Generic? && Ascii.Lower(tag) in PassThrough ==> t.language == tag
    ensures t.Generic? && Ascii.Lower(tag) in Renamed ==> t.language == Renamed[Ascii.Lower(tag)]
  {
    var lower := Ascii.Lower(tag);
    if lower == "rust" then Playground
    else if lower in PassThrough then Generic(tag)
    else if lower in Renamed then Generic(Renamed[lower])
    else if lower == "" then NoLanguage
    else Unsupported
  }

  /** Routing looks only at the lower-cased tag, except that pass-through aliases keep their spelling. */
  lemma DispatchIgnoresCase(a: string, b: string)
    requires Ascii.Lower(a) == Ascii.Lower(b) && Ascii.Lower(a) !in PassThrough
    ensures Dispatch(a) == Dispatch(b)
  {
  }

  /** Every language the generic service is asked for is a pass-through tag or one of the three renamings. */
  lemma DispatchGenericLanguage(tag: string)
    requires Dispatch(tag).Generic?
    ensures Ascii.Lower(Dispatch(tag).language) in PassThrough || Dispatch(tag).language in {"node", "ts", "py"}
  {
    var lower := Ascii.Lower(tag);
    if lower in PassThrough {
      Ascii.LowerIdempotent(tag);
    }
  }

  /** `run_code`. */
  function RunCode(language: string, code: string, api: Backends): (r: Outcome)
    ensures language == "" ==> r == Err(NoLanguageError)
    ensures Dispatch(language) == Unsupported ==> r == Err(UnsupportedError)
    ensures Dispatch(language) == Playground ==> r == RunRust(code, api)
    ensures Dispatch(language).Generic? ==> r == RunOther(Dispatch(language).language, code, api)
    ensures r.Err? ==> r.message in {NoLanguageError, UnsupportedError, CodeFailedError, ApiError}
  {
    match Dispatch(language)
    case Playground => RunRust(code, api)
    case Generic(remote) => RunOther(remote, code, api)
    case NoLanguage => Err(NoLanguageError)
    case Unsupported => Err(UnsupportedError)
  }

  // ---------------------------------------------------------------- validation

  /** The output in a fence of its own. */
  function Wrap(out: string): (r: string)
    ensures |r| == |out| + 8
    ensures r[..4] == Fence && r[4 .. |r| - 4] == out && r[|r| - 4..] == Fence
  {
    Fence + out + Fence
  }

  /** The fence line that opens and closes the wrapped output. */
  const Fence := "```\n"

  lemma WrapNewlines(out: string)
    ensures Ascii.CountChar(Wrap(out), '\n') == Ascii.CountChar(out, '\n') + 2
  {
    Ascii.CountCharConcat("```\n", out, '\n');
    Ascii.CountCharConcat("```\n" + out, "```\n", '\n');
  }

  /**
   * The limits on a backend's output: fewer than 25 newlines (checked first), then fewer than
   * 2000 bytes once wrapped. The raw output never appears in an error.
   */
  function ValidateOutput(out: string): (r: Outcome)
    ensures r.Ok? <==> Ascii.CountChar(out, '\n') < MaxNewlines && |Utf8.Encode(Wrap(out))| < MaxBytes
    ensures r.Ok? ==> r.value == Wrap(out)
    ensures r.Ok? ==> Ascii.CountChar(r.value, '\n') < MaxNewlines + 2
    ensures Ascii.CountChar(out, '\n') >= MaxNewlines ==> r == Err(TooManyLinesError)
    ensures Ascii.CountChar(out, '\n') < MaxNewlines && !r.Ok? ==> r == Err(TooManyCharsError)
  {
    WrapNewlines(out);
    if Ascii.CountChar(out, '\n') < MaxNewlines then
      var validated := Wrap(out);
      if |Utf8.Encode(validated)| < MaxBytes then Ok(validated) else Err(TooManyCharsError)
    else
      Err(TooManyLinesError)
  }

  /** `run_code_command`: first code block, its backend's output, then validation. */
  function RunCodeCommand(content: string, api: Backends): (r: Outcome)
    ensures CodeBlock.Extract(content).None? ==> r == Panic(NoCodeBlock)
    ensures CodeBlock.Extract(content).Some? ==>
      var cap := CodeBlock.Extract(content).value;
      var response := RunCode(cap.tag, cap.code, api);
      && (!response.Ok? ==> r == response)
      && (response.Ok? ==> r == ValidateOutput(response.value))
    ensures r.Ok? ==> Ascii.CountChar(r.value, '\n') < MaxNewlines + 2 && |Utf8.Encode(r.value)| < MaxBytes
    ensures r.Err? ==> r.message in {NoLanguageError, UnsupportedError, CodeFailedError, ApiError, TooManyLinesError, TooManyCharsError}
  {
    match CodeBlock.Extract(content)
    case None => Panic(NoCodeBlock)
    case Some(cap) =>
      var response := RunCode(cap.tag, cap.code, api);
      if response.Ok? then ValidateOutput(response.value) else response
  }

  // ---------------------------------------------------------------- commands

  /** `Command::run`: every command needs a resolved message; ping and pong then answer with a constant. */
  ghost function RunCommand(cmd: Command, api: Backends): (r: Outcome)
    ensures GetContent(cmd.data).None? ==> r == Err(ContextMenuError)
    ensures GetContent(cmd.data).Some? && cmd.commandType == Ping ==> r == Ok("Pong!")
    ensures GetContent(cmd.data).Some? && cmd.commandType == Pong ==> r == Ok("Ping!")
    ensures GetContent(cmd.data).Some? && cmd.commandType == Run ==> r == RunCodeCommand(GetContent(cmd.data).value, api)
  {
    match GetContent(cmd.data)
    case None => Err(ContextMenuError)
    case Some(content) =>
      match cmd.commandType
      case Ping => Ok("Pong!")
      case Pong => Ok("Ping!")
      case Run => RunCodeCommand(content, api)
  }

  /** `run` invoked on a single message runs that message's code block. */
  lemma RunOnSingleMessage(data: InteractionData, id: string, api: Backends)
    requires data.name == "run"
    requires data.resolved.Some? && |data.resolved.value.messages| == 1 && id in data.resolved.value.messages
    ensures NewCommand(data).Some?
    ensures RunCommand(NewCommand(data).value, api) == RunCodeCommand(data.resolved.value.messages[id].content, api)
  {
    GetContentSingle(data, id);
  }

  // ---------------------------------------------------------------- the source's tests

  /** The Rust test: a playground that prints "Hello" gives the wrapped output. */
  lemma RunValidRust(api: Backends)
    requires api.rust(RustRequest("fn main() {\n" + "println!(\"Hello\");\n" + "}\n"))
          == Some(RustApiResponse(Some(true), Some("Hello\n"), Some(""), None))
    ensures RunCodeCommand("```" + "rust" + "\n" + "fn main() {\n" + "println!(\"Hello\");\n" + "}\n" + "```\n", api)
         == Ok("```\n" + "Hello\n" + "```\n")
  {
    var body := "fn main() {\n" + "println!(\"Hello\");\n" + "}\n";
    CodeBlock.ExtractRustExample();
    RustTagRunsRust(body, api);
    HelloIsValid();
  }

  lemma RustTagRunsRust(code: string, api: Backends)
    ensures RunCode("rust", code, api) == RunRust(code, api)
  {
    var tag := "rust";
    assert forall k :: 0 <= k < |tag| ==> !Ascii.IsUpper(tag[k]);
    Ascii.LowerOfLower(tag);
  }

  lemma HelloIsValid()
    ensures ValidateOutput("Hello\n") == Ok("```\n" + "Hello\n" + "```\n")
  {
    assert Ascii.CountChar("Hello\n", '\n') == 1;
    ValidAsciiOutput("Hello\n");
  }

  /** The Python test: a generic service that prints "Hello" for `py` gives the wrapped output. */
  lemma RunValidPython(api: Backends)
    requires api.other(OtherRequest("py", "print(\"Hello\")\n"))
          == Some(OtherApiResponse(Some(true), OtherData(Some("Hello\n"))))
    ensures RunCodeCommand("```" + "py" + "\n" + "print(\"Hello\")\n" + "```\n", api)
         == Ok("```\n" + "Hello\n" + "```\n")
  {
    CodeBlock.ExtractPythonExample();
    PyTagRunsOther("print(\"Hello\")\n", api);
    HelloIsValid();
  }

  lemma PyTagRunsOther(code: string, api: Backends)
    ensures RunCode("py", code, api) == RunOther("py", code, api)
  {
    var tag := "py";
    assert forall k :: 0 <= k < |tag| ==> !Ascii.IsUpper(tag[k]);
    Ascii.LowerOfLower(tag);
  }

  /** The tagless test: an empty tag is refused before any backend is asked. */
  lemma RunNoLanguage(api: Backends)
    ensures RunCodeCommand("```" + "\n" + "fn main() {\n" + "println!(\"Hello\");\n" + "}\n" + "```\n", api)
         == Err(NoLanguageError)
  {
    var s := "```" + "\n" + "fn main() {\n" + "println!(\"Hello\");\n" + "}\n" + "```\n";
    assert |s| == 41;
    assert CodeBlock.FenceAt(s, 0);
    assert CodeBlock.WordRunEnd(s, 3) == 3;
    assert CodeBlock.MatchAt(s, 0, 0, 33);
    var cap := CodeBlock.Extract(s).value;
    assert cap.start == 0 && |cap.tag| == 0;
  }

  /** An unknown tag is refused. */
  lemma RunUnsupported(api: Backends)
    ensures RunCodeCommand("```" + "random_lang" + "\n" + "fn main() {\n" + "println!(\"Hello\");\n" + "}\n" + "```\n", api)
         == Err(UnsupportedError)
  {
    ExtractRandomLang();
    RandomLangUnsupported();
  }

  lemma RandomLangUnsupported()
    ensures Dispatch("random_lang") == Unsupported
  {
    var tag := "random_lang";
    assert forall k :: 0 <= k < |tag| ==> !Ascii.IsUpper(tag[k]);
    Ascii.LowerOfLower(tag);
    assert |tag| == 11;
  }

  lemma ExtractRandomLang()
    ensures var r := CodeBlock.Extract("```" + "random_lang" + "\n" + "fn main() {\n" + "println!(\"Hello\");\n" + "}\n" + "```\n");
      r.Some? && r.value.tag == "random_lang"
  {
    var s := "```" + "random_lang" + "\n" + "fn main() {\n" + "println!(\"Hello\");\n" + "}\n" + "```\n";
    assert |s| == 52;
    assert CodeBlock.FenceAt(s, 0);
    assert CodeBlock.MatchAt(s, 0, 11, 33);
    var cap := CodeBlock.Extract(s).value;
    assert cap.start == 0 && |cap.tag| == 11;
    assert cap.tag == s[3 .. 14] == "random_lang";
  }

  /** A short ASCII output passes validation. */
  lemma ValidAsciiOutput(out: string)
    requires forall k :: 0 <= k < |out| ==> out[k] as int < 0x80
    requires Ascii.CountChar(out, '\n') < MaxNewlines && |out| + 8 < MaxBytes
    ensures ValidateOutput(out) == Ok(Wrap(out))
  {
    WrapAsciiBytes(out);
  }

  /** Wrapping adds eight bytes to an ASCII output. */
  lemma WrapAsciiBytes(out: string)
    requires forall k :: 0 <= k < |out| ==> out[k] as int < 0x80
    ensures |Utf8.Encode(Wrap(out))| == |out| + 8
  {
    FenceBytes();
    Utf8.EncodeAscii(out);
    Utf8.EncodeConcat("```\n", out);
    Utf8.EncodeConcat("```\n" + out, "```\n");
  }

  lemma FenceBytes()
    ensures |Utf8.Encode("```\n")| == 4
  {
    var fence := "```\n";
    assert forall k :: 0 <= k < |fence| ==> fence[k] as int < 0x80;
    Utf8.EncodeAscii(fence);
  }
}
