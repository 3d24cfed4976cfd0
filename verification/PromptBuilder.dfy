/** Prompt assembly and its prefix cache (src/prompt-builder.h): two aligned streams, text and
    codec, summed row by row. Tokenization, language and speaker lookup come in as a request. */
module PromptBuilder {
  import opened Seqs
  import opened Talker
  import opened PromptKey
  import opened Vectors
  import G = Generate

  datatype Specials = Specials(nothink: nat, think: nat, thinkBos: nat, thinkEos: nat, pad: nat, bos: nat)

  /** The model side: projected text rows, codec rows, and the projected text specials. */
  datatype Env = Env(hidden: nat, text: int -> Vec, codec: int -> Vec, ttsBos: Vec, ttsEos: Vec, ttsPad: Vec,
                     special: Specials)

  /** Token ids of the wrapped utterance and instruction; language and speaker ids (negative for
      none); the reference voice: speaker row, tokens of the wrapped reference text, and one summed
      codec row per reference frame. */
  datatype Request = Request(ids: seq<int>, instruct: seq<int>, language: int, named: bool, speaker: int,
                             spk: Option<Vec>, refText: bool, refIds: seq<int>, refFrames: seq<Vec>)

  function TextRow(e: Env, id: int): Vec { e.text(id) }
  function CodecRow(e: Env, id: int): Vec { e.codec(id) }

  ghost predicate Sized(e: Env, req: Request) {
    && (forall id: int :: |TextRow(e, id)| == e.hidden)
    && (forall id: int :: |CodecRow(e, id)| == e.hidden)
    && |e.ttsBos| == |e.ttsEos| == |e.ttsPad| == e.hidden
    && (req.spk.Some? ==> |req.spk.value| == e.hidden)
    && (forall t | 0 <= t < |req.refFrames| :: |req.refFrames[t]| == e.hidden)
    && (req.named <==> req.speaker >= 0)
  }

  // ----- the uncached prompt --------------------------------------------------------------

  predicate Icl(req: Request) { req.refText && req.refFrames != [] }

  /** The codec ids left of the utterance; -2 marks the slot of the reference speaker. */
  function CodecLeft(e: Env, req: Request): (r: seq<int>)
    ensures r != []
  {
    (if req.language < 0 then [e.special.nothink, e.special.thinkBos, e.special.thinkEos]
     else [e.special.think, e.special.thinkBos, req.language, e.special.thinkEos])
    + (if req.speaker >= 0 then [req.speaker] else if req.spk.Some? then [-2] else [])
    + [e.special.pad]
  }

  function TextRows(e: Env, ids: seq<int>): (r: seq<Vec>)
    ensures |r| == |ids|
  {
    seq(|ids|, i requires 0 <= i < |ids| => TextRow(e, ids[i]))
  }

  function CodecEntry(e: Env, id: int, spk: Option<Vec>): Vec {
    if id == -2 && spk.Some? then spk.value else CodecRow(e, id)
  }

  /** Row i of the codec prefix: padding text, the begin-of-speech text on the last one. */
  ghost function PrefixRow(e: Env, req: Request, left: seq<int>, i: nat): Vec
    requires Sized(e, req) && i < |left|
  {
    Plus(if i == |left| - 1 then e.ttsBos else e.ttsPad, CodecEntry(e, left[i], req.spk))
  }

  ghost function Prefix(e: Env, req: Request, instruct: seq<int>, role: seq<int>, left: seq<int>): (r: seq<Vec>)
    requires Sized(e, req)
    ensures |r| == |instruct| + |role| + |left|
  {
    TextRows(e, instruct + role) + seq(|left|, i requires 0 <= i < |left| => PrefixRow(e, req, left, i))
  }

  function Body(ids: seq<int>): seq<int>
    requires |ids| >= 8
  {
    ids[3..|ids| - 5]
  }

  /** Standard layout behind the prefix: utterance text and end of text over codec padding, then one
      row of text padding over the codec's begin. */
  ghost function StandardTail(e: Env, req: Request): (r: seq<Vec>)
    requires Sized(e, req) && |req.ids| >= 8
    ensures |r| == |Body(req.ids)| + 2
  {
    var pad := CodecRow(e, e.special.pad);
    var text := TextRows(e, Body(req.ids));
    seq(|text|, i requires 0 <= i < |text| => Plus(text[i], pad))
    + [Plus(e.ttsEos, pad)] + [Plus(e.ttsPad, CodecRow(e, e.special.bos))]
  }

  /** All text of an in-context prompt: reference, utterance, end of text. */
  function TextStream(e: Env, req: Request): seq<Vec>
    requires |req.ids| >= 8 && |req.refIds| >= 8
  {
    TextRows(e, Body(req.refIds) + Body(req.ids)) + [e.ttsEos]
  }

  function CodecStream(e: Env, req: Request): seq<Vec> {
    [CodecRow(e, e.special.bos)] + req.refFrames
  }

  /** Position j of the text stream, continued with padding for ever. */
  function TextAt(e: Env, req: Request, j: nat): Vec
    requires |req.ids| >= 8 && |req.refIds| >= 8
  {
    if j < |TextStream(e, req)| then TextStream(e, req)[j] else e.ttsPad
  }

  ghost function IclBlock(e: Env, req: Request): (r: seq<Vec>)
    requires Sized(e, req) && |req.ids| >= 8 && |req.refIds| >= 8
  {
    var codec := CodecStream(e, req);
    seq(|codec|, j requires 0 <= j < |codec| => Plus(TextAt(e, req, j), codec[j]))
  }

  /** Text rows the prompt has no room for. */
  function Leftover(e: Env, req: Request): seq<Vec>
    requires |req.ids| >= 8 && |req.refIds| >= 8
  {
    var text, n := TextStream(e, req), |CodecStream(e, req)|;
    if |text| > n then text[n..] else [e.ttsPad]
  }

  predicate Refused(req: Request) {
    || (req.named && req.spk.Some?)
    || (Icl(req) && req.spk.None?)
    || |req.ids| <= 8
    || (Icl(req) && |req.refIds| <= 8)
  }

  /** The prompt without any cache. */
  ghost function Built(e: Env, req: Request): (r: Option<G.Prompt>)
    requires Sized(e, req)
  {
    if Refused(req) then None
    else
      var head := Prefix(e, req, req.instruct, req.ids[..3], CodecLeft(e, req));
      if Icl(req) then Some(G.Prompt(head + IclBlock(e, req), Leftover(e, req), e.ttsPad))
      else Some(G.Prompt(head + StandardTail(e, req), [e.ttsPad], e.ttsPad))
  }

  /** Which requests are refused: a named speaker beside a reference voice, a reference text without
      that voice, and texts with nothing between their three opening and five closing tokens. */
  lemma RefusedExactly(e: Env, req: Request)
    requires Sized(e, req)
    ensures Built(e, req).None?
       <==> || (req.named && req.spk.Some?) || |req.ids| <= 8
            || (req.refText && req.refFrames != [] && (req.spk.None? || |req.refIds| <= 8))
  {
  }

  /** A prompt starts with the instruction and the three role tokens as plain text. */
  lemma TextPrefixSpelled(e: Env, req: Request)
    requires Sized(e, req) && Built(e, req).Some?
    ensures var rows, n := Built(e, req).value.rows, |req.instruct|;
            && |req.ids| > 8 && |rows| >= n + 3
            && (forall i | 0 <= i < n :: rows[i] == e.text(req.instruct[i]))
            && rows[n] == e.text(req.ids[0]) && rows[n + 1] == e.text(req.ids[1]) && rows[n + 2] == e.text(req.ids[2])
  {
    hide Plus, CodecLeft, IclBlock, StandardTail;
    var head := Prefix(e, req, req.instruct, req.ids[..3], CodecLeft(e, req));
    assert head <= Built(e, req).value.rows;
    forall i | 0 <= i < |req.instruct| + 3 ensures head[i] == TextRow(e, (req.instruct + req.ids[..3])[i]) { }
  }

  lemma CodecPrefixAt(e: Env, req: Request)
    requires Sized(e, req) && Built(e, req).Some?
    ensures var rows, n, left := Built(e, req).value.rows, |req.instruct|, CodecLeft(e, req);
            |rows| >= n + 3 + |left| && forall k | n + 3 <= k < n + 3 + |left| :: rows[k] == PrefixRow(e, req, left, k - n - 3)
  {
    hide Plus, CodecLeft, IclBlock, StandardTail, PrefixRow, TextRows;
    var n, left := |req.instruct|, CodecLeft(e, req);
    var head := Prefix(e, req, req.instruct, req.ids[..3], left);
    assert head <= Built(e, req).value.rows;
    forall k | n + 3 <= k < n + 3 + |left| ensures head[k] == PrefixRow(e, req, left, k - n - 3) { }
  }

  /** Then follows the codec prefix over text padding - thinking tokens around the language, or the
      tokens for none, then the speaker, by id or by row - and the codec padding over the begin of
      text. */
  lemma CodecPrefixSpelled(e: Env, req: Request)
    requires Sized(e, req) && Built(e, req).Some?
    ensures var rows, n := Built(e, req).value.rows, |req.instruct|;
            var sp := e.special;
            var c := if req.language < 0 then 3 else 4;
            var v := if req.speaker >= 0 || req.spk.Some? then 1 else 0;
            && |rows| >= n + 3 + c + v + 1
            && (if req.language < 0 then
                  && rows[n + 3] == Plus(e.ttsPad, CodecRow(e, sp.nothink))
                  && rows[n + 4] == Plus(e.ttsPad, CodecRow(e, sp.thinkBos))
                  && rows[n + 5] == Plus(e.ttsPad, CodecRow(e, sp.thinkEos))
                else
                  && rows[n + 3] == Plus(e.ttsPad, CodecRow(e, sp.think))
                  && rows[n + 4] == Plus(e.ttsPad, CodecRow(e, sp.thinkBos))
                  && rows[n + 5] == Plus(e.ttsPad, CodecRow(e, req.language))
                  && rows[n + 6] == Plus(e.ttsPad, CodecRow(e, sp.thinkEos)))
            && (req.speaker >= 0 ==> rows[n + 3 + c] == Plus(e.ttsPad, CodecRow(e, req.speaker)))
            && (req.speaker < 0 && req.spk.Some? ==> rows[n + 3 + c] == Plus(e.ttsPad, req.spk.value))
            && rows[n + 3 + c + v] == Plus(e.ttsBos, CodecRow(e, sp.pad))
  {
    CodecPrefixAt(e, req);
    hide Plus, Built;
    var n, left := |req.instruct|, CodecLeft(e, req);
    assert left[|left| - 1] == e.special.pad;
  }

  /** The rows behind the prefix of a standard prompt, one by one: the utterance's tokens without the
      three in front and the five behind, end of text, and text padding over the codec's begin. */
  lemma StandardSpelled(e: Env, req: Request)
    requires Sized(e, req) && Built(e, req).Some? && !(req.refText && req.refFrames != [])
    ensures var prompt, m := Built(e, req).value, |req.ids| - 8;
            var h := |prompt.rows| - m - 2;
            && m > 0 && h == |req.instruct| + 3 + |CodecLeft(e, req)|
            && (forall k | h <= k < h + m ::
                  prompt.rows[k] == Plus(TextRow(e, req.ids[3 + k - h]), CodecRow(e, e.special.pad)))
            && prompt.rows[h + m] == Plus(e.ttsEos, CodecRow(e, e.special.pad))
            && prompt.rows[h + m + 1] == Plus(e.ttsPad, CodecRow(e, e.special.bos))
            && prompt.trailing == [e.ttsPad] && prompt.pad == e.ttsPad
  {
    hide Plus, Prefix;
  }

  /** Position j of the text stream of an in-context prompt: the reference text's tokens, then the
      utterance's, both without the three in front and the five behind, end of text, and padding. */
  lemma TextAtSpelled(e: Env, req: Request, j: nat)
    requires |req.ids| >= 8 && |req.refIds| >= 8
    ensures var r, m := |req.refIds| - 8, |req.ids| - 8;
            TextAt(e, req, j) == if j < r then TextRow(e, req.refIds[3 + j])
                                 else if j < r + m then TextRow(e, req.ids[3 + j - r])
                                 else if j == r + m then e.ttsEos else e.ttsPad
  {
  }

  /** In context mode no text row is lost, repeated or reordered: with the prompt's block starting
      at row h, position j of the text stream is in row h + j while the block lasts, and the
      overlay of generated frame t carries position T + t, T being the block's length. */
  lemma TextConserved(e: Env, req: Request)
    requires Sized(e, req) && Icl(req) && !Refused(req)
    ensures var prompt := Built(e, req).value;
            var T := 1 + |req.refFrames|;
            var h := |prompt.rows| - T;
            && h == |req.instruct| + 3 + |CodecLeft(e, req)|
            && (forall j | 0 <= j < T ::
                  prompt.rows[h + j]
                  == Plus(TextAt(e, req, j), if j == 0 then CodecRow(e, e.special.bos) else req.refFrames[j - 1]))
            && (forall t: nat :: G.Overlay(prompt, t) == TextAt(e, req, T + t))
  {
    var prompt := Built(e, req).value;
    var T := 1 + |req.refFrames|;
    forall t: nat ensures G.Overlay(prompt, t) == TextAt(e, req, T + t) {
    }
  }

  /** So in a synthesis the talker reads the whole text stream in order: what it is fed after frame t
      is the frame's embedding plus position T + t of the stream. */
  lemma TextReachesTalker(e: Env, req: Request, engine: G.Engine, frames: seq<G.Codes>, t: nat)
    requires Sized(e, req) && Icl(req) && !Refused(req) && t < |frames|
    requires G.Sized(engine, Built(e, req).value) && G.S.Rectangular(frames, G.CodebooksOf(engine))
    ensures var prompt := Built(e, req).value;
            && G.Fed(engine, prompt, frames)[|prompt.rows| + t]
               == Plus(G.EmbedSum(engine, prompt, frames[t], |frames[t]|), G.Overlay(prompt, t))
            && G.Overlay(prompt, t) == TextAt(e, req, 1 + |req.refFrames| + t)
  {
    TextConserved(e, req);
    G.FedAt(engine, Built(e, req).value, frames, t);
  }

  // ----- the prefix cache -----------------------------------------------------------------

  datatype Entry = Entry(key: string, rows: nat, prefix: seq<Vec>)

  /** An entry holds the prefix of the id lists its key spells. */
  ghost predicate Faithful(e: Env, entry: Entry) {
    exists req, instruct, role, left ::
      && Sized(e, req) && req.spk.None? && entry.key == Key(instruct, role, left)
      && entry.prefix == Prefix(e, req, instruct, role, left) && entry.rows == |entry.prefix|
  }

  /** First in, first out; an entry under the same key is replaced where it stands. */
  function Stored(entries: seq<Entry>, max: nat, entry: Entry): seq<Entry> {
    if max == 0 || entry.rows == 0 then entries
    else if HasKey(entries, entry.key) then Replaced(entries, entry)
    else (if |entries| >= max then entries[|entries| - max + 1..] else entries) + [entry]
  }

  predicate HasKey(entries: seq<Entry>, key: string) {
    exists i :: 0 <= i < |entries| && entries[i].key == key
  }

  /** The first entry under the key is replaced. */
  function Replaced(entries: seq<Entry>, entry: Entry): (r: seq<Entry>)
    ensures |r| == |entries|
  {
    if entries == [] then []
    else if entries[0].key == entry.key then [entry] + entries[1..]
    else [entries[0]] + Replaced(entries[1..], entry)
  }

  lemma {:induction false} ReplacedAt(entries: seq<Entry>, entry: Entry, k: nat)
    requires k < |entries| && entries[k].key == entry.key
    requires forall i | 0 <= i < k :: entries[i].key != entry.key
    ensures Replaced(entries, entry) == entries[k := entry]
  {
    if k > 0 { ReplacedAt(entries[1..], entry, k - 1); }
  }

  class PrefixCache {
    var entries: seq<Entry>
    const max: nat

    constructor (max: nat)
      ensures entries == [] && this.max == max
    {
      entries := [];
      this.max := max;
    }

    /** Keys are unique, the size limit holds, and every entry is what an uncached build computes. */
    ghost predicate Valid(e: Env)
      reads this
    {
      && |entries| <= max
      && (forall i, j | 0 <= i < j < |entries| :: entries[i].key != entries[j].key)
      && (forall i | 0 <= i < |entries| :: Faithful(e, entries[i]))
    }

    /** prompt_prefix_cache_find: the first entry under the key. */
    method Find(key: string) returns (at: Option<nat>)
      ensures at.None? ==> !HasKey(entries, key)
      ensures at.Some? ==> at.value < |entries| && entries[at.value].key == key
                           && forall i | 0 <= i < at.value :: entries[i].key != key
    {
      for i := 0 to |entries|
        invariant forall j | 0 <= j < i :: entries[j].key != key
      {
        if entries[i].key == key { return Some(i); }
      }
      return None;
    }

    /** prompt_prefix_cache_store. */
    method Store(key: string, rows: nat, data: seq<Vec>)
      modifies this`entries
      ensures entries == Stored(old(entries), max, Entry(key, rows, data))
      ensures max == 0 || rows == 0 ==> entries == old(entries)
      ensures max > 0 && rows > 0 && (forall i | 0 <= i < |old(entries)| :: old(entries)[i].key != key) ==>
                && |entries| == (if |old(entries)| < max then |old(entries)| + 1 else max)
                && entries == old(entries)[|old(entries)| + 1 - |entries|..] + [Entry(key, rows, data)]
      ensures max > 0 && rows > 0 ==>
                forall at | 0 <= at < |old(entries)| && old(entries)[at].key == key
                            && (forall i | 0 <= i < at :: old(entries)[i].key != key) ::
                  entries == old(entries)[at := Entry(key, rows, data)]
    {
      var entry := Entry(key, rows, data);
      if max == 0 || rows == 0 { return; }
      var existing := Find(key);
      if existing.Some? {
        ReplacedAt(entries, entry, existing.value);
        entries := entries[existing.value := entry];
        return;
      }
      ghost var was := entries;
      while |entries| >= max
        invariant |entries| <= |was| && entries == was[|was| - |entries|..]
        invariant |entries| == |was| || |entries| >= max - 1
        decreases |entries|
      {
        entries := entries[1..];
      }
      entries := entries + [entry];
    }

    /** Storing a faithful entry keeps the cache valid. */
    lemma StoreKeeps(e: Env, entry: Entry, after: seq<Entry>)
      requires Valid(e) && Faithful(e, entry) && !HasKey(entries, entry.key)
      requires after == Stored(entries, max, entry)
      ensures |after| <= max
      ensures forall i, j | 0 <= i < j < |after| :: after[i].key != after[j].key
      ensures forall i | 0 <= i < |after| :: Faithful(e, after[i])
    {
      hide Faithful;
    }
  }

  // ----- assembly -------------------------------------------------------------------------

  /** Copies rows into the buffer at a row. */
  method Paste(buf: seq<Vec>, row: nat, rows: seq<Vec>) returns (out: seq<Vec>)
    requires row + |rows| <= |buf|
    ensures |out| == |buf| && out[..row + |rows|] == buf[..row] + rows
  {
    out := buf;
    for i := 0 to |rows|
      invariant |out| == |buf| && out[..row + i] == buf[..row] + rows[..i]
    {
      out := out[row + i := rows[i]];
      assert out[..row + i + 1] == out[..row + i] + [rows[i]];
    }
  }

  /** codec_prefill and codec_pad behind it. */
  method BuildCodecLeft(e: Env, req: Request) returns (left: seq<int>)
    ensures left == CodecLeft(e, req)
  {
    if req.language < 0 {
      left := [e.special.nothink, e.special.thinkBos, e.special.thinkEos];
    } else {
      left := [e.special.think, e.special.thinkBos, req.language, e.special.thinkEos];
    }
    if req.speaker >= 0 {
      left := left + [req.speaker];
    } else if req.spk.Some? {
      left := left + [-2];
    }
    left := left + [e.special.pad];
  }

  /** The prefix on a cache miss: instruction and role text, then the codec prefix row by row. */
  method BuildPrefix(e: Env, req: Request, left: seq<int>, buf: seq<Vec>) returns (out: seq<Vec>)
    requires Sized(e, req) && |req.ids| >= 8 && left != []
    requires |req.instruct| + 3 + |left| <= |buf|
    ensures |out| == |buf|
    ensures out[..|req.instruct| + 3 + |left|] == Prefix(e, req, req.instruct, req.ids[..3], left)
  {
    var head := req.instruct + [req.ids[0], req.ids[1], req.ids[2]];
    assert head == req.instruct + req.ids[..3];
    out := Paste(buf, 0, TextRows(e, head));
    var row := |head|;
    for i := 0 to |left|
      invariant |out| == |buf|
      invariant out[..row + i] == TextRows(e, head) + seq(i, k requires 0 <= k < i => PrefixRow(e, req, left, k))
    {
      var text := if i == |left| - 1 then e.ttsBos else e.ttsPad;
      var codec := if left[i] == -2 && req.spk.Some? then req.spk.value else CodecRow(e, left[i]);
      out := out[row + i := Plus(text, codec)];
      assert out[..row + i + 1] == out[..row + i] + [PrefixRow(e, req, left, i)];
    }
  }

  /** Adds a row to n rows of the buffer in place. */
  method AddToRows(buf: seq<Vec>, start: nat, n: nat, x: Vec) returns (out: seq<Vec>)
    requires start + n <= |buf| && forall k | start <= k < start + n :: |buf[k]| == |x|
    ensures |out| == |buf| && out[..start] == buf[..start]
    ensures forall k | start <= k < start + n :: out[k] == Plus(buf[k], x)
  {
    hide Plus;
    out := buf;
    for i := 0 to n
      invariant |out| == |buf| && out[..start] == buf[..start]
      invariant forall k | start <= k < start + n :: out[k] == if k < start + i then Plus(buf[k], x) else buf[k]
    {
      out := out[start + i := Plus(out[start + i], x)];
    }
  }

  lemma PaddedText(e: Env, req: Request)
    requires Sized(e, req) && |req.ids| >= 8
    ensures var pad, text, n := CodecRow(e, e.special.pad), TextRows(e, Body(req.ids)), |Body(req.ids)|;
            && |e.ttsEos| == |e.ttsPad| == |pad| == |CodecRow(e, e.special.bos)|
            && (forall i | 0 <= i < n :: |text[i]| == |pad| && StandardTail(e, req)[i] == Plus(text[i], pad))
            && StandardTail(e, req)[n] == Plus(e.ttsEos, pad)
            && StandardTail(e, req)[n + 1] == Plus(e.ttsPad, CodecRow(e, e.special.bos))
  {
  }

  lemma Pasted(buf: seq<Vec>, start: nat, rows: seq<Vec>, out: seq<Vec>)
    requires start + |rows| <= |buf| == |out| && out[..start + |rows|] == buf[..start] + rows
    ensures out[..start] == buf[..start] && forall k | 0 <= k < |rows| :: out[start + k] == rows[k]
  {
    assert forall k | 0 <= k < start + |rows| :: out[k] == out[..start + |rows|][k];
  }

  /** The rows behind the prefix in the standard layout. */
  method BuildStandard(e: Env, req: Request, buf: seq<Vec>, start: nat) returns (out: seq<Vec>, row: nat)
    requires Sized(e, req) && |req.ids| >= 8 && start + |Body(req.ids)| + 2 <= |buf|
    ensures row == start + |Body(req.ids)| + 2
    ensures |out| == |buf| && out[..row] == buf[..start] + StandardTail(e, req)
  {
    hide *;
    PaddedText(e, req);
    var text := TextRows(e, Body(req.ids));
    var pad := CodecRow(e, e.special.pad);
    out := Paste(buf, start, text);
    Pasted(buf, start, text, out);
    assert forall k | start <= k < start + |text| :: out[k] == text[k - start];
    out := AddToRows(out, start, |text|, pad);
    row := start + |text|;
    out := out[row := Plus(e.ttsEos, pad)];
    row := row + 1;
    out := out[row := Plus(e.ttsPad, CodecRow(e, e.special.bos))];
    row := row + 1;
    RowsAre(buf, start, StandardTail(e, req), out);
  }

  lemma RowsAre(buf: seq<Vec>, start: nat, rows: seq<Vec>, out: seq<Vec>)
    requires start + |rows| <= |buf| == |out| && out[..start] == buf[..start]
    requires forall k | 0 <= k < |rows| :: out[start + k] == rows[k]
    ensures out[..start + |rows|] == buf[..start] + rows
  {
    assert forall k | 0 <= k < start :: out[k] == out[..start][k];
  }

  /** The text stream cut or padded to T rows; what does not fit is kept for the overlay. */
  method AlignText(e: Env, req: Request, T: nat) returns (aligned: seq<Vec>, trailing: seq<Vec>)
    requires |req.ids| >= 8 && |req.refIds| >= 8 && T == |CodecStream(e, req)|
    ensures |aligned| == T && forall j | 0 <= j < T :: aligned[j] == TextAt(e, req, j)
    ensures trailing == Leftover(e, req)
  {
    var text := TextRows(e, Body(req.refIds) + Body(req.ids)) + [e.ttsEos];
    if |text| >= T {
      aligned := text[..T];
      trailing := if |text| - T > 0 then text[T..] else [e.ttsPad];
    } else {
      aligned := text;
      for i := |text| to T
        invariant |aligned| == i && forall j | 0 <= j < i :: aligned[j] == TextAt(e, req, j)
      {
        aligned := aligned + [e.ttsPad];
      }
      trailing := [e.ttsPad];
    }
  }

  lemma IclRow(e: Env, req: Request, j: nat)
    requires Sized(e, req) && |req.ids| >= 8 && |req.refIds| >= 8 && j <= |req.refFrames|
    ensures |CodecStream(e, req)| == |IclBlock(e, req)| == 1 + |req.refFrames|
    ensures CodecStream(e, req) == [CodecRow(e, e.special.bos)] + req.refFrames
    ensures |TextAt(e, req, j)| == |CodecStream(e, req)[j]| == e.hidden
    ensures IclBlock(e, req)[j] == Plus(TextAt(e, req, j), CodecStream(e, req)[j])
  {
  }

  /** The in-context block: the aligned text stream summed with the codec stream. */
  method BuildIcl(e: Env, req: Request, buf: seq<Vec>, start: nat) returns (out: seq<Vec>, row: nat, trailing: seq<Vec>)
    requires Sized(e, req) && |req.ids| >= 8 && |req.refIds| >= 8 && start + 1 + |req.refFrames| <= |buf|
    ensures row == start + 1 + |req.refFrames|
    ensures |out| == |buf| && out[..row] == buf[..start] + IclBlock(e, req)
    ensures trailing == Leftover(e, req)
  {
    hide *;
    var T := 1 + |req.refFrames|;
    var codec := [CodecRow(e, e.special.bos)] + req.refFrames;
    IclRow(e, req, 0);
    var aligned;
    aligned, trailing := AlignText(e, req, T);
    out := buf;
    for i := 0 to T
      invariant |out| == |buf| && out[..start + i] == buf[..start] + IclBlock(e, req)[..i]
    {
      IclRow(e, req, i);
      out := out[start + i := Plus(aligned[i], codec[i])];
      assert out[..start + i + 1] == out[..start + i] + [IclBlock(e, req)[i]];
    }
    row := start + T;
  }

  /** prompt_builder_build. With any valid cache the prompt is the uncached one, and the cache stays
      valid; the final row check never fails. */
  method Build(e: Env, req: Request, cache: PrefixCache) returns (r: Option<G.Prompt>)
    requires Sized(e, req) && cache.Valid(e)
    modifies cache`entries
    ensures cache.Valid(e)
    ensures r == Built(e, req)
  {
    if req.named && req.spk.Some? { return None; }
    var icl := req.refText && |req.refFrames| > 0;
    if icl && req.spk.None? { return None; }
    if |req.ids| < 8 { return None; }
    var nText := |req.ids| - 3 - 5;
    if nText <= 0 { return None; }
    var left := BuildCodecLeft(e, req);
    if icl && |req.refIds| < 8 { return None; }
    if icl && |req.refIds| - 3 - 5 <= 0 { return None; }
    var prefixRows := |req.instruct| + 3 + |left|;
    var T := if icl then prefixRows + 1 + |req.refFrames| else prefixRows + nText + 1 + 1;
    var embed: seq<Vec> := seq(T, _ => seq(e.hidden, _ => 0.0));
    var row;
    embed, row := CachedPrefix(e, req, left, cache, embed);
    var trailing;
    if icl {
      embed, row, trailing := BuildIcl(e, req, embed, row);
    } else {
      embed, row := BuildStandard(e, req, embed, row);
      trailing := [e.ttsPad];
    }
    if row != T { return None; }
    assert embed[..row] == embed;
    r := Some(G.Prompt(embed, trailing, e.ttsPad));
  }

  /** The prefix rows, from the cache when it has them. */
  method CachedPrefix(e: Env, req: Request, left: seq<int>, cache: PrefixCache, buf: seq<Vec>)
    returns (out: seq<Vec>, row: nat)
    requires Sized(e, req) && cache.Valid(e) && |req.ids| >= 8 && left == CodecLeft(e, req)
    requires |req.instruct| + 3 + |left| <= |buf|
    modifies cache`entries
    ensures cache.Valid(e)
    ensures row == |req.instruct| + 3 + |left| && |out| == |buf|
    ensures out[..row] == Prefix(e, req, req.instruct, req.ids[..3], left)
  {
    hide Prefix, Key, Sized, Faithful, HasKey, Stored, CodecLeft, Plus;
    var cacheable := !(req.refText && |req.refFrames| > 0) && req.spk.None?;
    var key, hit := "", None;
    if cacheable {
      key := BuildKey(req.instruct, req.ids, left);
      hit := cache.Find(key);
    }
    if hit.Some? {
      var entry := cache.entries[hit.value];
      SameInputs(e, req, entry, req.instruct, req.ids[..3], left);
      out := Paste(buf, 0, entry.prefix);
      row := entry.rows;
      assert buf[..0] + entry.prefix == entry.prefix;
    } else {
      out := BuildPrefix(e, req, left, buf);
      row := |req.instruct| + 3 + |left|;
      if cacheable { StorePrefix(e, req, left, cache, key, out[..row]); }
    }
  }

  /** Keeps a prefix just built under its key. */
  method StorePrefix(e: Env, ghost req: Request, ghost left: seq<int>, cache: PrefixCache, key: string, rows: seq<Vec>)
    requires Sized(e, req) && req.spk.None? && cache.Valid(e) && |req.ids| >= 8
    requires key == Key(req.instruct, req.ids[..3], left) && !HasKey(cache.entries, key)
    requires rows == Prefix(e, req, req.instruct, req.ids[..3], left)
    modifies cache`entries
    ensures cache.Valid(e)
  {
    hide Prefix, Key, Sized, HasKey, Stored;
    ghost var entry := Entry(key, |rows|, rows);
    assert Faithful(e, entry);
    cache.StoreKeeps(e, entry, Stored(cache.entries, cache.max, entry));
    cache.Store(key, |rows|, rows);
  }

  /** A hit under the key of these id lists holds their prefix. */
  lemma SameInputs(e: Env, req: Request, entry: Entry, instruct: seq<int>, role: seq<int>, left: seq<int>)
    requires Sized(e, req) && req.spk.None? && Faithful(e, entry) && entry.key == Key(instruct, role, left)
    ensures entry.prefix == Prefix(e, req, instruct, role, left) && entry.rows == |instruct| + |role| + |left|
  {
    hide Key;
    var r, i, o, l :|
      && Sized(e, r) && r.spk.None? && entry.key == Key(i, o, l)
      && entry.prefix == Prefix(e, r, i, o, l) && entry.rows == |entry.prefix|;
    KeyInjective(i, o, l, instruct, role, left);
    assert Prefix(e, r, i, o, l) == Prefix(e, req, instruct, role, left);
  }
}
