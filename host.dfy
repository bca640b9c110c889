/** The values the plugin exchanges with the Mattermost server, and the
    reader it drains after asking MuChat. The server's API calls are not
    modelled; what they return comes in as an input and what they are asked
    to do is recorded as an output. */
module Host {
  import opened Text

  /** The fields of a post that the plugin reads or sets. */
  datatype Post = Post(id: string, userId: string, channelId: string, rootId: string, message: string)

  /** A channel's id and its type; "D" is a direct-message channel. */
  datatype Channel = Channel(id: string, channelType: string)

  const ChannelTypeDirect := "D"

  /** How the last Read call ended: at end of input, or with some other error.
      In both cases the call may still have returned data. */
  datatype Final = Eof(data: string) | Failed(data: string, error: string)

  /** The results of the successive Read calls on a reader: `chunks` are the
      data of the calls that returned no error (possibly empty), and `final`
      is the call that ended the reading. */
  datatype Reader = Reader(chunks: seq<string>, final: Final)

  /** The data of every Read call, the last one included. */
  function Pieces(r: Reader): (pieces: seq<string>)
    ensures |pieces| == |r.chunks| + 1 && pieces[|r.chunks|] == r.final.data
    ensures pieces[..|r.chunks|] == r.chunks
  {
    r.chunks + [r.final.data]
  }

  /** Everything the reader returned. */
  function ReadText(r: Reader): string
  {
    Concat(Pieces(r))
  }

  /** The reader hands out `text`, cut into pieces in some way, and ends
      with end of input. */
  predicate Delivers(r: Reader, text: string)
  {
    r.final.Eof? && ReadText(r) == text
  }

  /** The reader hands out `text` in order: what it returns is a prefix of
      `text`, and all of it when the reading ends at end of input. */
  predicate Streams(r: Reader, text: string)
  {
    HasPrefix(text, ReadText(r)) && (r.final.Eof? ==> ReadText(r) == text)
  }

  /** The data a strings.Reader returns to Read calls with a buffer of
      `size` characters: full buffers while more than a buffer is left,
      then the rest. */
  function Chunks(s: string, size: nat): (chunks: seq<string>)
    requires size > 0
    ensures forall k :: 0 <= k < |chunks| ==> 0 < |chunks[k]| <= size
    decreases |s|
  {
    if s == [] then []
    else if |s| <= size then [s]
    else [s[..size]] + Chunks(s[size..], size)
  }

  /** strings.NewReader(s) read with a buffer of `size`: the chunks, then
      a call that returns nothing and end of input. */
  function StringReader(s: string, size: nat): Reader
    requires size > 0
  {
    Reader(Chunks(s, size), Eof([]))
  }

  lemma {:induction false} ConcatChunks(s: string, size: nat)
    requires size > 0
    ensures Concat(Chunks(s, size)) == s
    decreases |s|
  {
    if s == [] {
    } else if |s| <= size {
      ConcatCons(s, []);
    } else {
      ConcatChunks(s[size..], size);
      ConcatCons(s[..size], Chunks(s[size..], size));
      assert s[..size] + s[size..] == s;
    }
  }

  /** A strings.Reader delivers exactly its string, however small the
      buffer, and never fails. */
  lemma StringReaderDelivers(s: string, size: nat)
    requires size > 0
    ensures Delivers(StringReader(s, size), s)
  {
    var r := StringReader(s, size);
    ConcatChunks(s, size);
    ConcatAppend(r.chunks, [[]]);
    ConcatCons([], []);
  }
}
