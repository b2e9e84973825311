/**
 `Output` as it works: text copied in stretches, a control collected byte by
 byte and re-encoded parameter by parameter. `write` may be called with any
 cut of the bytes; what it does is what `Transcoding.Feed` says.
 */
module Output {
  import opened Options
  import opened Sequences
  import opened ControlText
  import opened Transcoding
  import Theme

  /** The next parameters of a control have been dealt with. */
  ghost predicate Reached(depth: Depth, params: seq<nat>, index: nat, done: seq<seq<nat>>) {
    && index <= |params|
    && Encode(depth, params) == Encoded(done + Encode(depth, params[index..]).sequences,
                                        Encode(depth, params[index..]).ok)
  }

  lemma ReachedAll(depth: Depth, params: seq<nat>, done: seq<seq<nat>>)
    requires Reached(depth, params, |params|, done)
    ensures Encode(depth, params) == Encoded(done, true)
  {
    assert params[|params|..] == [];
    assert done + [] == done;
  }

  lemma ReachedRefused(depth: Depth, params: seq<nat>, index: nat, done: seq<seq<nat>>)
    requires Reached(depth, params, index, done) && index < |params| && Selection(params[index..]) == 0
    ensures Encode(depth, params) == Encoded(done, false)
  {
    assert done + [] == done;
  }

  lemma ReachedNext(depth: Depth, params: seq<nat>, index: nat, done: seq<seq<nat>>)
    requires Reached(depth, params, index, done) && index < |params| && Selection(params[index..]) > 0
    ensures Reached(depth, params, index + Selection(params[index..]), done + EncodeFirst(depth, params[index..]))
  {
    hide EncodeFirst, Selection;
    var p := params[index..];
    var n := Selection(p);
    assert p[n..] == params[index + n..];
    var first, rest := EncodeFirst(depth, p), Encode(depth, p[n..]).sequences;
    assert done + (first + rest) == done + first + rest;
  }

  lemma FeedStops(o: Settings, w: Writer, bytes: string, i: nat)
    requires i <= |bytes| && !Feed(o, w, bytes[..i]).ok
    ensures Feed(o, w, bytes) == Feed(o, w, bytes[..i])
  {
    FeedSplits(o, w, bytes[..i], bytes[i..]);
    assert bytes[..i] + bytes[i..] == bytes;
  }

  lemma FeedNext(o: Settings, w: Writer, bytes: string, i: nat)
    requires i < |bytes| && Feed(o, w, bytes[..i]).ok
    ensures Feed(o, w, bytes[..i + 1]) == FeedByte(o, Feed(o, w, bytes[..i]).w, bytes[i])
  {
    assert bytes[..i + 1][..i] == bytes[..i];
  }

  /** The sequences have been written after `before`. */
  ghost predicate Wrote(out: string, before: string, sequences: seq<seq<nat>>) {
    && (forall k :: 0 <= k < |sequences| ==> Writable(sequences[k]))
    && out == before + PrintAll(Controls(sequences))
  }

  lemma NothingWritten(out: string)
    ensures Wrote(out, out, [])
  {
    assert out + "" == out;
  }

  lemma WroteMore(out: string, middle: string, before: string, done: seq<seq<nat>>, more: seq<seq<nat>>)
    requires Wrote(out, middle, more) && Wrote(middle, before, done)
    ensures Wrote(out, before, done + more)
  {
    hide Writable, PrintAll, PrintParams;
    assert Controls(done + more) == Controls(done) + Controls(more);
    PrintSplits(Controls(done), Controls(more));
    assert before + PrintAll(Controls(done)) + PrintAll(Controls(more))
        == before + (PrintAll(Controls(done)) + PrintAll(Controls(more)));
  }

  class Output {
    const options: Settings
    var out: string
    var sequence: string

    ghost function Now(): Writer
      reads this
    {
      Writer(out, sequence)
    }

    constructor (options: Settings)
      ensures this.options == options && Now() == Writer("", "")
    {
      this.options, out, sequence := options, "", "";
    }

    method WriteControl(p: seq<nat>)
      requires Writable(p)
      modifies this`out
      ensures Wrote(out, old(out), [p])
    {
      PrintOne(Control(PrintParams(p)));
      assert Controls([p]) == [Control(PrintParams(p))];
      out := out + PrintToken(Control(PrintParams(p)));
    }

    /** A colour at the depth the terminal has. */
    method WriteColor(selection: seq<nat>, rgb: Rgb)
      requires (|selection| == 3 || |selection| == 5) && Writable(selection)
      modifies this`out
      ensures Wrote(out, old(out), EncodeColor(options.depth, selection, rgb))
    {
      hide Nearest, IndexedRgb, PrintParams, PrintAll;
      match options.depth {
        case NoColor =>
          NothingWritten(out);
        case TrueColor =>
          WriteControl(selection);
        case Ansi256 =>
          if |selection| == 3 {
            WriteControl(selection);
          } else {
            WriteControl([selection[0], 5, Nearest(rgb, 256)]);
          }
        case Ansi16 =>
          WriteControl(Theme.Select(Theme.Ansi(Nearest(rgb, 16)), selection[0] == 48));
      }
    }

    /** An extended colour: how many parameters it took, none when it is not one. */
    method WriteExtended(params: seq<nat>, index: nat) returns (consumed: nat)
      requires index < |params| && params[index] in {38, 48} && forall k :: 0 <= k < |params| ==> params[k] <= 65535
      modifies this`out
      ensures consumed == Selection(params[index..])
      ensures if consumed == 0 then out == old(out)
              else Wrote(out, old(out), EncodeFirst(options.depth, params[index..]))
    {
      hide Nearest, IndexedRgb, EncodeColor, Wrote;
      var rgb: Rgb;
      if index + 4 < |params| && params[index + 1] == 2 {
        if params[index + 2] > 255 || params[index + 3] > 255 || params[index + 4] > 255 {
          return 0;
        }
        rgb, consumed := (params[index + 2], params[index + 3], params[index + 4]), 5;
      } else if index + 2 < |params| && params[index + 1] == 5 && params[index + 2] <= 255 {
        rgb, consumed := IndexedRgb(params[index + 2]), 3;
      } else {
        return 0;
      }
      assert params[index..][..consumed] == params[index..index + consumed];
      WriteColor(params[index..index + consumed], rgb);
    }

    /** One selection of the control. */
    method WriteSelection(params: seq<nat>, index: nat) returns (consumed: nat)
      requires index < |params| && forall k :: 0 <= k < |params| ==> params[k] <= 65535
      modifies this`out
      ensures consumed == Selection(params[index..])
      ensures if consumed == 0 then out == old(out)
              else Wrote(out, old(out), EncodeFirst(options.depth, params[index..]))
    {
      var parameter := params[index];
      if parameter == 38 || parameter == 48 {
        consumed := WriteExtended(params, index);
      } else {
        consumed := 1;
        if !IsColor(parameter) || options.depth != NoColor {
          WriteControl([parameter]);
        } else {
          NothingWritten(out);
        }
      }
    }

    /** `sgr`: the control in `sequence`, written as far as it is understood. */
    method Sgr() returns (ok: bool)
      requires |sequence| > 2
      modifies this`out
      ensures Wrote(out, old(out), EncodeBody(options, Body(sequence)).sequences)
      ensures ok == EncodeBody(options, Body(sequence)).ok
    {
      hide Params, Encode, PrintParams, PrintAll, Selection, EncodeFirst;
      if options.plain {
        NothingWritten(out);
        return true;
      }
      var parsed := Params(Body(sequence));
      if parsed.None? {
        NothingWritten(out);
        return false;
      }
      SmallParams(Body(sequence));
      ok := WriteSelections(parsed.value);
    }

    method WriteSelections(params: seq<nat>) returns (ok: bool)
      requires forall k :: 0 <= k < |params| ==> params[k] <= 65535
      modifies this`out
      ensures Wrote(out, old(out), Encode(options.depth, params).sequences) && ok == Encode(options.depth, params).ok
    {
      hide Encode, Selection, EncodeFirst, Reached, Wrote;
      var index: nat := 0;
      ghost var done: seq<seq<nat>> := [];
      NothingWritten(out);
      ReachedNone(options.depth, params);
      while index < |params|
        invariant Reached(options.depth, params, index, done) && index <= |params| && Wrote(out, old(out), done)
      {
        label Before:
        var consumed := WriteSelection(params, index);
        if consumed == 0 {
          ReachedRefused(options.depth, params, index, done);
          return false;
        }
        WroteMore(out, old@Before(out), old(out), done, EncodeFirst(options.depth, params[index..]));
        ReachedNext(options.depth, params, index, done);
        index, done := index + consumed, done + EncodeFirst(options.depth, params[index..]);
      }
      ReachedAll(options.depth, params, done);
      ok := true;
    }

    /** One byte of a control that is being collected, or its first. */
    method Collect(byte: char) returns (ok: bool)
      requires |sequence| > 0 || byte == ESCAPE
      modifies this
      ensures Fed(Now(), ok) == FeedByte(options, old(Now()), byte)
    {
      hide PrintAll, EncodeBody;
      sequence := sequence + [byte];
      if Unexpected(sequence) {
        return false;
      }
      if byte == 'm' && |sequence| > 2 {
        ok := Sgr();
        if !ok {
          return false;
        }
        sequence := "";
      }
      ok := true;
    }

    /** `write`: text goes out in stretches, each when a control begins or the bytes end. */
    method Write(bytes: string) returns (ok: bool)
      modifies this
      ensures Fed(Now(), ok) == Feed(options, old(Now()), bytes)
    {
      hide FeedByte;
      var start: nat, index: nat := 0, 0;
      assert out + "" == out;
      while index < |bytes|
        invariant start <= index <= |bytes| && (|sequence| > 0 ==> start == index)
        invariant Feed(options, old(Now()), bytes[..index])
               == Fed(Writer(out + bytes[start..index], sequence), true)
      {
        FeedNext(options, old(Now()), bytes, index);
        if |sequence| == 0 && bytes[index] != ESCAPE {
          TextByte(options, out, bytes, start, index);
        } else {
          if |sequence| == 0 {
            out := out + bytes[start..index];
          }
          assert |sequence| > 0 ==> out + bytes[start..index] == out by { assert bytes[index..index] == ""; }
          start := index + 1;
          ok := Collect(bytes[index]);
          if !ok {
            FeedStops(options, old(Now()), bytes, index + 1);
            return false;
          }
          assert out + bytes[start..index + 1] == out;
        }
        index := index + 1;
      }
      assert bytes[..|bytes|] == bytes;
      out := out + bytes[start..];
      ok := true;
    }

    /** `flush` */
    method Flush() returns (ok: bool)
      ensures ok <==> |sequence| == 0
    {
      ok := |sequence| == 0;
    }
  }

  lemma TextByte(o: Settings, out: string, bytes: string, start: nat, index: nat)
    requires start <= index < |bytes| && bytes[index] != ESCAPE
    ensures FeedByte(o, Writer(out + bytes[start..index], ""), bytes[index])
         == Fed(Writer(out + bytes[start..index + 1], ""), true)
  {
    assert out + bytes[start..index + 1] == out + bytes[start..index] + [bytes[index]];
  }

  /** However a text is cut into writes, bytes out and acceptance are those of the whole. */
  method WriteChunks(options: Settings, chunks: seq<string>) returns (result: Option<string>)
    ensures result == Transcode(options, Concat(chunks))
  {
    hide Feed;
    var output := new Output(options);
    assert Feed(options, Writer("", ""), "") == Fed(Writer("", ""), true) by { NothingToFeed(options); }
    for k := 0 to |chunks|
      invariant output.options == options
      invariant Feed(options, Writer("", ""), Concat(chunks[..k])) == Fed(output.Now(), true)
    {
      assert chunks[..k + 1][..k] == chunks[..k];
      FeedSplits(options, Writer("", ""), Concat(chunks[..k]), chunks[k]);
      var ok := output.Write(chunks[k]);
      if !ok {
        ghost var rest := PrefixOfConcat(chunks, k + 1);
        FeedSplits(options, Writer("", ""), Concat(chunks[..k + 1]), rest);
        return None;
      }
    }
    assert chunks[..|chunks|] == chunks;
    var complete := output.Flush();
    result := if complete then Some(output.out) else None;
  }

  lemma NothingToFeed(o: Settings)
    ensures Feed(o, Writer("", ""), "") == Fed(Writer("", ""), true)
  {
  }

  lemma ReachedNone(depth: Depth, params: seq<nat>)
    ensures Reached(depth, params, 0, [])
  {
    assert params[0..] == params;
    assert [] + Encode(depth, params).sequences == Encode(depth, params).sequences;
  }

  lemma SmallParams(body: string)
    requires Params(body).Some?
    ensures forall k :: 0 <= k < |Params(body).value| ==> Params(body).value[k] <= 65535
  {
    if |body| > 0 { ParsedAreSmall(Fields(body)); }
  }
}
