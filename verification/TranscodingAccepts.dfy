/**
 What the transcoder accepts: controls made of whole commands, and nothing
 else. So whatever a renderer writes of text and commands is accepted, for
 every terminal.
 */
module TranscodingAccepts {
  import opened Options
  import opened ControlText
  import opened Transcoding

  /** One attribute or basic colour, a colour of the palette, or a colour by its components. */
  datatype Command =
    | Code(code: nat)
    | Indexed(background: bool, index: nat)
    | Direct(background: bool, red: nat, green: nat, blue: nat)

  predicate Valid(c: Command) {
    match c
    case Code(code) => code != 38 && code != 48
    case Indexed(_, index) => index <= 255
    case Direct(_, r, g, b) => r <= 255 && g <= 255 && b <= 255
  }

  predicate AllValid(commands: seq<Command>) { forall i :: 0 <= i < |commands| ==> Valid(commands[i]) }

  function CodesOf(c: Command): seq<nat> {
    match c
    case Code(code) => [code]
    case Indexed(background, index) => [if background then 48 else 38, 5, index]
    case Direct(background, r, g, b) => [if background then 48 else 38, 2, r, g, b]
  }

  function AllCodes(commands: seq<Command>): seq<nat> {
    if |commands| == 0 then [] else CodesOf(commands[0]) + AllCodes(commands[1..])
  }

  // ---------- One control ----------

  lemma FirstSelection(c: Command, rest: seq<nat>)
    requires Valid(c)
    ensures Selection(CodesOf(c) + rest) == |CodesOf(c)| > 0 && (CodesOf(c) + rest)[|CodesOf(c)|..] == rest
  {
  }

  lemma {:induction false} CommandsAreUnderstood(depth: Depth, commands: seq<Command>)
    requires AllValid(commands)
    ensures Encode(depth, AllCodes(commands)).ok
  {
    hide Selection, EncodeFirst, CodesOf, Valid;
    if |commands| > 0 {
      FirstSelection(commands[0], AllCodes(commands[1..]));
      CommandsAreUnderstood(depth, commands[1..]);
    }
  }

  function FirstCommand(p: seq<nat>): (c: Command)
    requires |p| > 0 && Selection(p) > 0
    ensures Valid(c) && CodesOf(c) == p[..Selection(p)]
  {
    match Selection(p)
    case 5 => Direct(p[0] == 48, p[2], p[3], p[4])
    case 3 => Indexed(p[0] == 48, p[2])
    case _ => Code(p[0])
  }

  lemma {:induction false} UnderstoodIsCommands(depth: Depth, p: seq<nat>) returns (commands: seq<Command>)
    requires Encode(depth, p).ok
    ensures AllValid(commands) && AllCodes(commands) == p
    decreases |p|
  {
    hide Selection, EncodeFirst, CodesOf, Valid;
    commands := [];
    if |p| > 0 {
      var n := Selection(p);
      var more := UnderstoodIsCommands(depth, p[n..]);
      commands := [FirstCommand(p)] + more;
      assert commands[1..] == more && p[..n] + p[n..] == p;
    }
  }

  /** A control is understood exactly when its parameters are whole commands, one after another. */
  lemma UnderstoodExactlyWhen(depth: Depth, p: seq<nat>)
    ensures Encode(depth, p).ok <==> exists commands :: AllValid(commands) && AllCodes(commands) == p
  {
    hide Encode, AllValid, AllCodes;
    if Encode(depth, p).ok {
      var commands := UnderstoodIsCommands(depth, p);
      assert AllValid(commands) && AllCodes(commands) == p;
    }
    forall commands | AllValid(commands) && AllCodes(commands) == p ensures Encode(depth, p).ok {
      CommandsAreUnderstood(depth, commands);
    }
  }

  // ---------- A whole text ----------

  ghost predicate IsCommands(body: string) {
    Params(body).Some? && exists commands :: AllValid(commands) && AllCodes(commands) == Params(body).value
  }

  /** A text is accepted exactly when it is complete and, unless output is plain, every control is made of commands. */
  lemma AcceptedExactlyWhen(o: Settings, bytes: string)
    ensures Transcode(o, bytes).Some? <==>
              && Tokens(bytes).Some?
              && (o.plain || forall k :: 0 <= k < |Tokens(bytes).value| && Tokens(bytes).value[k].Control? ==>
                               IsCommands(Tokens(bytes).value[k].body))
  {
    hide Transcode, Tokens, Encode, Params, AllValid, AllCodes;
    TranscodeIsTokenwise(o, bytes);
    if Tokens(bytes).Some? {
      var tokens := Tokens(bytes).value;
      forall k | 0 <= k < |tokens| && tokens[k].Control? && Params(tokens[k].body).Some?
        ensures Encode(o.depth, Params(tokens[k].body).value).ok <==> IsCommands(tokens[k].body)
      {
        UnderstoodExactlyWhen(o.depth, Params(tokens[k].body).value);
      }
    }
  }

  /** What a renderer writes: a byte of text, or a control with some commands. */
  datatype Rendered = Byte(b: char) | Styling(commands: seq<Command>)

  predicate Renderable(r: Rendered) {
    match r
    case Byte(b) => b != ESCAPE
    case Styling(commands) =>
      && |commands| > 0 && AllValid(commands) && |AllCodes(commands)| > 0
      && (forall k :: 0 <= k < |AllCodes(commands)| ==> AllCodes(commands)[k] <= 65535)
      && |PrintParams(AllCodes(commands))| <= 61
  }

  function TokenOf(r: Rendered): Token
    requires Renderable(r)
  {
    match r
    case Byte(b) => Text(b)
    case Styling(commands) => Control(PrintParams(AllCodes(commands)))
  }

  predicate AllRenderable(text: seq<Rendered>) { forall k :: 0 <= k < |text| ==> Renderable(text[k]) }

  function TokensOf(text: seq<Rendered>): seq<Token>
    requires AllRenderable(text)
  {
    seq(|text|, k requires 0 <= k < |text| => TokenOf(text[k]))
  }

  lemma RenderedIsPrintable(r: Rendered)
    requires Renderable(r)
    ensures Printable(TokenOf(r)) && (r.Styling? ==> IsCommands(TokenOf(r).body))
  {
    if r.Styling? { ParamsOfPrinted(AllCodes(r.commands)); }
  }

  /** Whatever a renderer writes of text and commands is accepted. */
  lemma RenderedIsAccepted(o: Settings, text: seq<Rendered>)
    requires AllRenderable(text)
    ensures Transcode(o, PrintAll(TokensOf(text))).Some?
  {
    hide Transcode, Tokens, PrintAll, IsCommands, Renderable, TokenOf, Printable;
    forall k | 0 <= k < |text|
      ensures Printable(TokensOf(text)[k])
      ensures TokensOf(text)[k].Control? ==> IsCommands(TokensOf(text)[k].body)
    {
      RenderedIsPrintable(text[k]);
      TokenKind(text[k]);
    }
    TokensOfPrinted(TokensOf(text));
    AcceptedExactlyWhen(o, PrintAll(TokensOf(text)));
  }

  lemma TokenKind(r: Rendered)
    requires Renderable(r)
    ensures TokenOf(r).Control? <==> r.Styling?
  {
  }
}
