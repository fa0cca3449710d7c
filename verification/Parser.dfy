/** The parser itself: fields changed in place by a loop over the blocks of the graph. */
module Parser {
  import opened Bytes
  import opened Graph
  import opened Machine
  import opened Soundness
  import opened Strides
  import opened Effects
  import opened Scan
  import Grammar
  import Messages
  import Requests

  /** The callbacks without data whose answer the parser acts on. */
  predicate Heeded(e: Event) {
    e.MessageBegin? || e.HeadersComplete? || e.ChunkHeader? || e.ChunkComplete? || e.MessageComplete?
  }

  /**
   The user answers as the policy says, or pauses where the policy says to go on. Answers to pieces
   of data are not restricted, and may differ from one way of cutting the stream to another.
   */
  ghost predicate Obeys(answer: seq<Event> -> int, d: Policy) {
    forall t: seq<Event> {:trigger answer(t)} :: t != [] && Heeded(t[|t| - 1]) ==>
      answer(t) == d(Glue(t)) || (answer(t) == HPE_PAUSED && d(Glue(t)) == 0)
  }

  class Parser {
    // llhttp__internal_t
    var cur: Node
    var index: nat
    var spanPos: nat              // _span_pos0 as an offset into the data, when a span is open
    var span: Option<Kind>        // _span_cb0, None when _span_pos0 is null
    var error: int
    var errorPos: nat
    var length: nat               // content_length
    var typ: nat
    var verb: nat                 // method
    var major: nat
    var minor: nat
    var headerState: nat
    var lenientHeaders: bool
    var lenientLength: bool
    var upgrade: bool
    var finish: nat
    var flags: Flags
    var status: nat

    // The user: an answer to every callback, from all the callbacks so far.
    const answer: seq<Event> -> int
    var calls: seq<Event>

    // Built with __SSE4_2__.
    const sse: bool

    ghost function Message(): Fields
      reads this
    {
      Fields(length, typ, verb, major, minor, headerState, lenientHeaders, lenientLength, upgrade, finish, flags, status)
    }

    /** The state between two calls of Execute. */
    ghost function View(): Core
      reads this
    {
      Core(cur, index, span, error, Glue(calls), Message())
    }

    /** The state at `p` inside the data: the bytes of an open span count as reported. */
    ghost function At(data: seq<byte>, p: nat): Config
      requires p <= |data| && (span.Some? ==> spanPos <= p)
      reads this
    {
      Config(if span.None? then View() else Gain(View(), data[spanPos..p]), data[p..])
    }

    /** What holds between two calls, in whatever order they come. */
    ghost predicate Stable()
      reads this
    {
      Placed(View()) && Rests(cur)
    }

    /** What holds between two calls until a message is completed by Finish: an open span is the last thing reported. */
    ghost predicate Valid()
      reads this
    {
      Sound(Config(View(), [])) && Rests(cur)
    }

    /** The state that an execution goes on from: of an open span at least an empty piece is reported. */
    ghost function Shown(): Core
      reads this
    {
      Gain(View(), [])
    }

    lemma ValidIsStable()
      requires Valid()
      ensures Stable()
    {
      hide ShapeOf, Skips, WordOf, SpanOf, Glue;
    }

    lemma ShownIsView()
      requires Valid() && error == 0
      ensures Shown() == View() && Stable()
    {
      hide ShapeOf, Skips, WordOf, SpanOf, Glue;
      GainNothing(View());
    }

    /** The user refuses the last of these callbacks: any answer but 0 for a piece, a pause for those that are heeded. */
    ghost predicate Refuses(t: seq<Event>)
      requires t != []
    {
      (t[|t| - 1].Piece? && answer(t) != 0) || (Heeded(t[|t| - 1]) && answer(t) == HPE_PAUSED)
    }

    /** After the first `n` of these callbacks the user refused none. */
    ghost predicate Unrefused(n: nat, t: seq<Event>) {
      forall i :: n < i <= |t| ==> !Refuses(t[..i])
    }

    /** After the first `n` callbacks no refusal was passed over: there was none, or it came last and is the error. */
    ghost predicate Heeds(n: nat)
      reads this
    {
      || Unrefused(n, calls)
      || (n < |calls| && Unrefused(n, calls[..|calls| - 1]) && error == answer(calls) != 0)
    }

    lemma HeedsOne(before: seq<Event>)
      requires before <= calls && |calls| <= |before| + 1
      requires |calls| > |before| && Refuses(calls) ==> error == answer(calls)
      ensures Heeds(|before|)
    {
      if |calls| > |before| {
        assert calls[..|calls|] == calls;
      }
    }

    lemma NoneRefused(t: seq<Event>)
      ensures Unrefused(|t|, t)
    {
    }

    lemma HeedsOn(n: nat, before: seq<Event>)
      requires n <= |before| && Unrefused(n, before) && before <= calls && Heeds(|before|) && |calls| <= |before| + 1
      ensures Heeds(n) && (error == 0 ==> Unrefused(n, calls))
    {
      assert calls[..|before|] == before;
      forall i | n < i <= |before| ensures calls[..i] == before[..i] {
      }
    }

    /** What holds at `p` inside the data. */
    ghost predicate Inside(data: seq<byte>, p: nat)
      reads this
    {
      && p <= |data| && (span.Some? ==> spanPos <= p)
      && Sound(At(data, p))
    }

    constructor (typ: nat, answer: seq<Event> -> int, sse: bool)
      ensures Valid() && View() == Fresh(typ) && calls == []
      ensures this.answer == answer && this.sse == sse
    {
      this.answer, this.sse, calls := answer, sse, [];
      cur, index, spanPos, span, error, errorPos := START, 0, 0, None, 0, 0;
      length, this.typ, verb, major, minor, headerState := 0, typ, 0, 0, 0, 0;
      lenientHeaders, lenientLength, upgrade, finish, flags, status := false, false, false, FINISH_SAFE, NO_FLAGS, 0;
    }

    /** OrHeaderFlag on the fields. */
    method OrFlag()
      modifies this`flags, this`headerState
      ensures Message() == OrHeaderFlag(old(Message()))
    {
      if headerState == 5 {
        flags, headerState := flags.(keepAlive := true), 1;
      } else if headerState == 6 {
        flags, headerState := flags.(close := true), 1;
      } else if headerState == 7 {
        flags, headerState := flags.(connectionUpgrade := true), 1;
      } else if headerState == 8 {
        flags := flags.(chunked := true);
      }
    }

    /** The blocks that change fields only, inside the span of a header name or value. */
    method InvokeInSpan()
      requires ShapeOf(cur).Invoke? && SpanOf(cur) != None
      modifies this`cur, this`headerState, this`flags
      ensures cur == Goto(old(cur), old(Message()))
      ensures Message() == Update(old(cur), old(Message()))
    {
      match cur
      case INVOKE_STORE_HEADER_STATE_1 => headerState := 1; cur := HEADER_FIELD_COLON;
      case INVOKE_STORE_HEADER_STATE_2 => headerState := 2; cur := HEADER_FIELD_COLON;
      case INVOKE_STORE_HEADER_STATE_3 => headerState := 3; cur := HEADER_FIELD_COLON;
      case INVOKE_STORE_HEADER_STATE_4 => headerState := 4; cur := HEADER_FIELD_COLON;
      case INVOKE_RESET_HEADER_STATE => headerState := 0; cur := HEADER_FIELD_GENERAL;
      case INVOKE_LOAD_HEADER_STATE_2 =>
        if headerState == 1 {
          cur := HEADER_VALUE_CONNECTION;
        } else if headerState == 2 {
          cur := if flags.contentLength then FAIL_UNEXPECTED_CONTENT_LENGTH else HEADER_VALUE_CONTENT_LENGTH;
        } else if headerState == 3 {
          flags := flags.(transferEncoding := true);
          cur := HEADER_VALUE_TE_CHUNKED;
        } else if headerState == 4 {
          flags, headerState := flags.(upgrade := true), 0;
          cur := HEADER_VALUE;
        } else {
          cur := HEADER_VALUE;
        }
      case INVOKE_TEST_LENIENT_HEADERS =>
        cur := if lenientHeaders then HEADER_VALUE_LENIENT else FAIL_INVALID_HEADER_TOKEN;
      case INVOKE_STORE_CONNECTION_5 => headerState := 5; cur := HEADER_VALUE_CONNECTION_WS;
      case INVOKE_STORE_CONNECTION_6 => headerState := 6; cur := HEADER_VALUE_CONNECTION_WS;
      case INVOKE_STORE_CONNECTION_7 => headerState := 7; cur := HEADER_VALUE_CONNECTION_WS;
      case INVOKE_LOAD_HEADER_STATE_4 => OrFlag(); cur := HEADER_VALUE_CONNECTION;
      case INVOKE_RESET_CONNECTION => headerState := 0; cur := HEADER_VALUE_CONNECTION_TOKEN;
      case INVOKE_OR_CONTENT_LENGTH => flags := flags.(contentLength := true); cur := HEADER_VALUE_OTHERWISE;
      case INVOKE_STORE_CHUNKED => headerState := 8; cur := HEADER_VALUE_OTHERWISE;
      case INVOKE_RESET_TRANSFER_ENCODING => headerState := 0; cur := HEADER_VALUE;
      case _ => cur := DEAD;
    }

    /** The blocks that change fields only: start line, and headers between their spans. */
    method InvokeHead()
      requires ShapeOf(cur).Invoke? && SpanOf(cur) == None && cur <= INVOKE_LOAD_HEADER_STATE_3
      modifies this`cur, this`typ, this`verb, this`headerState, this`finish, this`flags, this`status
      ensures cur == Goto(old(cur), old(Message()))
      ensures Message() == Update(old(cur), old(Message()))
    {
      match cur
      case INVOKE_UPDATE_FINISH => finish := FINISH_UNSAFE; cur := ON_MESSAGE_BEGIN;
      case INVOKE_LOAD_TYPE =>
        cur := if typ == HTTP_REQUEST then START_REQ else if typ == HTTP_RESPONSE then START_RES else START_REQ_OR_RES;
      case INVOKE_STORE_HEAD => verb := HTTP_HEAD; typ := HTTP_REQUEST; cur := REQ_FIRST_SPACE_BEFORE_URL;
      case INVOKE_TYPE_RESPONSE => typ := HTTP_RESPONSE; cur := RES_HTTP_MAJOR;
      case INVOKE_TYPE_REQUEST => typ := HTTP_REQUEST; cur := START_REQ;
      case INVOKE_UPDATE_STATUS_CODE => status := 0; cur := RES_STATUS_CODE;
      case INVOKE_LOAD_HEADER_STATE =>
        if headerState == 2 {
          cur := FAIL_INVALID_CONTENT_LENGTH;
        } else {
          OrFlag();
          cur := SPAN_START_HEADER_VALUE;
        }
      case INVOKE_LOAD_HEADER_STATE_3 => OrFlag(); cur := ON_HEADER_VALUE_COMPLETE;
      case _ => cur := DEAD;
    }

    /** The blocks that change fields only: end of the header block. */
    method InvokeHeadersDone()
      requires ShapeOf(cur).Invoke? && INVOKE_AFTER_HEADERS_COMPLETE <= cur <= INVOKE_TEST_FLAGS
      modifies this`cur, this`upgrade, this`flags
      ensures cur == Goto(old(cur), old(Message()))
      ensures Message() == Update(old(cur), old(Message()))
    {
      match cur
      case INVOKE_TEST_FLAGS =>
        if flags.trailing {
          cur := ON_CHUNK_COMPLETE_1;
        } else if flags.transferEncoding && flags.contentLength && !lenientLength {
          cur := FAIL_UNEXPECTED_CONTENT_LENGTH;
        } else {
          cur := INVOKE_BEFORE_HEADERS_COMPLETE;
        }
      case INVOKE_BEFORE_HEADERS_COMPLETE =>
        if flags.upgrade && flags.connectionUpgrade {
          upgrade := typ == HTTP_REQUEST || status == 101;
        } else {
          upgrade := verb == HTTP_CONNECT;
        }
        cur := ON_HEADERS_COMPLETE;
      case INVOKE_SKIP_BODY => flags := flags.(skipBody := true); cur := INVOKE_AFTER_HEADERS_COMPLETE;
      case INVOKE_SKIP_FOR_UPGRADE =>
        upgrade := true; flags := flags.(skipBody := true); cur := INVOKE_AFTER_HEADERS_COMPLETE;
      case _ => cur := AfterHeadersComplete();
    }

    /** The blocks that change fields only: bodies, and end of the message. */
    method InvokeBody()
      requires ShapeOf(cur).Invoke? && cur > INVOKE_LOAD_HEADER_STATE_3
      requires !(INVOKE_AFTER_HEADERS_COMPLETE <= cur <= INVOKE_TEST_FLAGS)
      modifies this`cur, this`length, this`finish, this`flags
      ensures cur == Goto(old(cur), old(Message()))
      ensures Message() == Update(old(cur), old(Message()))
    {
      match cur
      case INVOKE_UPDATE_CONTENT_LENGTH => length := 0; cur := CHUNK_SIZE_DIGIT;
      case INVOKE_IS_EQUAL_CONTENT_LENGTH => cur := if length == 0 then INVOKE_OR_TRAILING else SPAN_START_BODY;
      case INVOKE_OR_TRAILING => flags := flags.(trailing := true); cur := HEADER_FIELD_START;
      case INVOKE_UPDATE_FINISH_2 => finish := FINISH_SAFE_WITH_CB; cur := SPAN_START_BODY_2;
      case INVOKE_IS_EQUAL_UPGRADE => cur := if upgrade then PAUSE_UPGRADE else INVOKE_AFTER_MESSAGE_COMPLETE;
      case INVOKE_AFTER_MESSAGE_COMPLETE => finish := FINISH_SAFE; flags := NO_FLAGS; cur := START;
      case _ => cur := DEAD;
    }

    /** The blocks that change fields only. */
    method InvokeBlock()
      requires ShapeOf(cur).Invoke?
      modifies this`cur, this`length, this`typ, this`verb, this`headerState, this`upgrade, this`finish, this`flags, this`status
      ensures cur == Goto(old(cur), old(Message()))
      ensures Message() == Update(old(cur), old(Message()))
    {
      hide Goto, Update;
      if INVOKE_AFTER_HEADERS_COMPLETE <= cur <= INVOKE_TEST_FLAGS {
        InvokeHeadersDone();
      } else if cur > INVOKE_LOAD_HEADER_STATE_3 {
        InvokeBody();
      } else if SpanOf(cur).Some? {
        InvokeInSpan();
      } else {
        InvokeHead();
      }
    }

    /** llhttp_message_needs_eof */
    function NeedsEof(): (b: bool)
      reads this
      ensures b == MessageNeedsEof(Message())
    {
      if typ == HTTP_REQUEST then false
      else if status / 100 == 1 || status == 204 || status == 304 || flags.skipBody then false
      else if flags.transferEncoding && !flags.chunked then true
      else if flags.chunked || flags.contentLength then false
      else true
    }

    /** llhttp__after_headers_complete */
    function AfterHeadersComplete(): (n: Node)
      reads this
      ensures n == BodyDecision(Message())
    {
      if upgrade && (verb == HTTP_CONNECT || flags.skipBody || !(flags.chunked || length > 0)) then ON_MESSAGE_COMPLETE_1
      else if flags.skipBody then ON_MESSAGE_COMPLETE
      else if flags.chunked then INVOKE_UPDATE_CONTENT_LENGTH
      else if flags.transferEncoding then
        if typ == HTTP_REQUEST && !lenientLength then FAIL_INVALID_TRANSFER_ENCODING else INVOKE_UPDATE_FINISH_2
      else if !flags.contentLength then
        if !NeedsEof() then ON_MESSAGE_COMPLETE else INVOKE_UPDATE_FINISH_2
      else if length == 0 then ON_MESSAGE_COMPLETE
      else SPAN_START_BODY_1
    }

    /** The bytes from `p` to `q` go by. */
    lemma Slide(data: seq<byte>, p: nat, q: nat)
      requires p <= q <= |data| && (span.Some? ==> spanPos <= p)
      ensures At(data, q) == Config(Gain(At(data, p).s, data[p..q]), data[q..])
      ensures data[p..] == data[p..q] + data[q..]
    {
      if span.Some? {
        GainMore(View(), data[spanPos..p], data[p..q]);
        assert data[spanPos..p] + data[p..q] == data[spanPos..q];
      }
    }

    method SwitchBlock(data: seq<byte>, p: nat, ghost d: Policy) returns (q: nat)
      requires Inside(data, p) && error == 0 && ShapeOf(cur).Switch? && p < |data|
      modifies this`cur
      ensures p <= q <= |data| && (span.Some? ==> spanPos <= q) && Leads(d, old(At(data, p)), At(data, q))
    {
      hide ShapeOf, Branch, Leads, Sound;
      SwitchLeads(d, At(data, p).s, data[p..]);
      Slide(data, p, p + 1);
      assert data[p..][0] == data[p] && data[p..][1..] == data[p + 1..] && data[p..p + 1] == [data[p]];
      var t := Branch(cur, data[p]);
      q := if t.over then p + 1 else p;
      cur := t.next;
    }

    /** The mul_add blocks on content_length. */
    method MulAddContentLength(base: nat, digit: nat) returns (overflow: bool)
      requires (base == 10 && digit <= 9) || (base == 16 && digit <= 15)
      modifies this`length
      ensures base == 10 ==> (length, !overflow) == MulAdd10(old(length), digit, MAX_UINT64)
      ensures base == 16 ==> (length, !overflow) == MulAdd16(old(length), digit)
    {
      if base == 16 {
        if length > MAX_UINT64 / 16 { return true; }
        length := 16 * length;
      } else {
        if length > MAX_UINT64 / 10 { return true; }
        length := 10 * length;
      }
      if length > MAX_UINT64 - digit { return true; }
      length := length + digit;
      return false;
    }

    /** The mul_add block on status_code, with its maximum. */
    method MulAddStatusCode(digit: nat) returns (overflow: bool)
      requires digit <= 9
      modifies this`status
      ensures var (x, ok) := MulAdd10(old(status), digit, 0xffff); status == x && (overflow <==> !ok || x > 999)
    {
      if status > 0xffff / 10 { return true; }
      status := 10 * status;
      if status > 0xffff - digit { return true; }
      status := status + digit;
      return status > 999;
    }

    method NumberBlock(data: seq<byte>, p: nat, ghost d: Policy) returns (q: nat)
      requires Inside(data, p) && error == 0 && ShapeOf(cur).Number? && p < |data|
      modifies this`cur, this`length, this`status, this`major, this`minor
      ensures p <= q <= |data| && (span.Some? ==> spanPos <= q) && Leads(d, old(At(data, p)), At(data, q))
    {
      hide ShapeOf, Leads, Sound, MissOf;
      NumberLeads(d, At(data, p).s, data[p..]);
      Slide(data, p, p + 1);
      assert data[p..][0] == data[p] && data[p..][1..] == data[p + 1..] && data[p..p + 1] == [data[p]];
      var c := data[p];
      if !IsDigitOf(cur, c) {
        cur := MissOf(cur);
        return p;
      }
      q := p + 1;
      DigitBlock(c);
    }

    /** One digit of a number. */
    method DigitBlock(c: byte)
      requires ShapeOf(cur).Number? && IsDigitOf(cur, c)
      modifies this`cur, this`length, this`status, this`major, this`minor
      ensures cur == AfterDigit(old(cur), old(Message()), c)
      ensures Message() == TakeDigit(old(cur), old(Message()), c)
    {
      match cur
      case RES_HTTP_MAJOR => major := c - 48; cur := RES_HTTP_DOT;
      case RES_HTTP_MINOR => minor := c - 48; cur := RES_HTTP_END;
      case RES_STATUS_CODE =>
        var overflow := MulAddStatusCode(c - 48);
        if overflow { cur := FAIL_INVALID_STATUS; }
      case HEADER_VALUE_CONTENT_LENGTH =>
        var overflow := MulAddContentLength(10, c - 48);
        if overflow { cur := SPAN_END_HEADER_VALUE_4; }
      case _ =>
        var overflow := MulAddContentLength(16, HexValue(c));
        cur := if overflow then FAIL_INVALID_CHUNK_SIZE else CHUNK_SIZE;
    }

    /** llparse__match_sequence_*: the word goes on, is whole, or breaks off at `q`. */
    method MatchBlock(data: seq<byte>, p: nat, ghost d: Policy) returns (q: nat)
      requires Inside(data, p) && error == 0 && ShapeOf(cur).Match? && p < |data|
      modifies this`cur, this`index
      ensures p <= q <= |data| && (span.Some? ==> spanPos <= q) && Leads(d, old(At(data, p)), At(data, q))
    {
      hide ShapeOf, WordOf, FoldOf, NextOf, MissOf, Sound, Leads;
      var word, fold := WordOf(cur), FoldOf(cur);
      var i := index;
      q := p;
      MatchPlaces(At(data, p).s, data[p..], 0);
      while q < |data|
        invariant p <= q <= |data| && i == index + (q - p) < |word|
        invariant forall j :: p <= j < q ==> FoldByte(fold, data[j]) == word[index + (j - p)]
      {
        if FoldByte(fold, data[q]) != word[i] {
          MatchEnds(data, p, q, d);
          cur, index := MissOf(cur), 0;
          return;
        }
        i := i + 1;
        if i == |word| {
          MatchEnds(data, p, q + 1, d);
          cur, index := NextOf(cur), 0;
          return q + 1;
        }
        q := q + 1;
      }
      MatchEnds(data, p, q, d);
      index := i;
    }

    /** MatchLeads on the bytes from `p` to `q`. */
    lemma MatchEnds(data: seq<byte>, p: nat, q: nat, d: Policy)
      requires Inside(data, p) && error == 0 && ShapeOf(cur).Match?
      requires p <= q <= |data| && p < |data| && index + (q - p) <= |WordOf(cur)|
      requires forall j :: p <= j < q ==> FoldByte(FoldOf(cur), data[j]) == WordOf(cur)[index + (j - p)]
      ensures var s, i, k := At(data, q).s, index + (q - p), At(data, p);
        && (i == |WordOf(cur)| ==> Leads(d, k, Config(s.(index := 0, cur := NextOf(cur)), data[q..])))
        && (i < |WordOf(cur)| && p < q ==> Leads(d, k, Config(s.(index := i), data[q..])))
        && (i < |WordOf(cur)| && q < |data| && FoldByte(FoldOf(cur), data[q]) != WordOf(cur)[i] ==>
              Leads(d, k, Config(s.(index := 0, cur := MissOf(cur)), data[q..])))
    {
      hide ShapeOf, WordOf, FoldOf, NextOf, MissOf, Sound, Leads;
      var s, w := At(data, p).s, data[p..q];
      Slide(data, p, q);
      forall i | 0 <= i < |w| ensures FoldByte(FoldOf(s.cur), w[i]) == WordOf(s.cur)[s.index + i] {
        assert w[i] == data[p + i];
        assert FoldByte(FoldOf(cur), data[p + i]) == WordOf(cur)[index + (p + i - p)];
      }
      MatchLeads(d, s, w, data[q..]);
    }

    /** consume_content_length: all that is there, or all that is needed. */
    method ConsumeBlock(data: seq<byte>, p: nat, ghost d: Policy) returns (q: nat)
      requires Inside(data, p) && error == 0 && ShapeOf(cur).Consume? && (p < |data| || length == 0)
      modifies this`cur, this`length
      ensures p <= q <= |data| && (span.Some? ==> spanPos <= q) && Leads(d, old(At(data, p)), At(data, q))
    {
      hide ShapeOf, NextOf, Sound, Leads;
      var avail, need := |data| - p, length;
      q := if avail >= need then p + need else |data|;
      ConsumeLeads(d, At(data, p).s, data[p..], q - p);
      Slide(data, p, q);
      assert data[p..][..q - p] == data[p..q] && data[p..][q - p..] == data[q..];
      if avail >= need {
        length := 0;
        cur := NextOf(cur);
      } else {
        length := length - avail;
      }
    }

    method OpenBlock(data: seq<byte>, p: nat, ghost d: Policy)
      requires Inside(data, p) && error == 0 && ShapeOf(cur).Open? && p < |data|
      modifies this`cur, this`span, this`spanPos
      ensures (span.Some? ==> spanPos <= p) && Leads(d, old(At(data, p)), At(data, p))
    {
      hide ShapeOf, NextOf, KindOf, Sound, Leads, Glue, Add, Run;
      OpenLeads(d, At(data, p).s, data[p..]);
      spanPos, span := p, Some(KindOf(cur));
      cur := NextOf(cur);
      assert data[p..p] == [];
    }

    lemma LeadsValid(d: Policy, k: Config, input: seq<byte>)
      requires Leads(d, k, Config(View().(error := 0), input)) && Plain(cur) && Rests(cur)
      ensures Valid()
    {
      hide Skips, ShapeOf, SpanOf, WordOf, Run;
    }

    /** The callback at the end of a span. Its error leaves the parser behind the span. */
    method CloseBlock(data: seq<byte>, p: nat, ghost d: Policy) returns (q: nat)
      requires Inside(data, p) && error == 0 && ShapeOf(cur).Close?
      modifies this`cur, this`span, this`error, this`errorPos, this`calls
      ensures p <= q <= |data| && span == None
      ensures Leads(d, old(At(data, p)), Config(View().(error := 0), data[q..]))
      ensures old(span).Some? && calls == old(calls) + [Piece(old(span).value, data[old(spanPos)..p])]
      ensures error == answer(calls) && (error != 0 ==> errorPos == q && Valid())
    {
      hide ShapeOf, NextOf, Skips, Leads, Sound, Glue, Add, SpanOf, Run;
      CloseLeads(d, At(data, p).s, data[p..]);
      EdgePlain(cur);
      GlueSnoc(calls, Piece(span.value, data[spanPos..p]));
      q := if Skips(cur) then p + 1 else p;
      assert Skips(cur) ==> data[p..][1..] == data[p + 1..];
      calls := calls + [Piece(span.value, data[spanPos..p])];
      span := None;
      cur := NextOf(cur);
      var err := answer(calls);
      if err != 0 {
        error, errorPos := err, q;
        LeadsValid(d, old(At(data, p)), data[q..]);
      }
    }

    lemma CallHeeded(n: Node, m: Fields)
      requires ShapeOf(n).Call?
      ensures !EventOf(n, m).Piece? && (Heeded(EventOf(n, m)) <==> MissOf(n) != n)
    {
    }

    /** What a callback without data is, and where a pause in it leads. */
    lemma CallPlaces(n: Node, m: Fields)
      requires ShapeOf(n).Call?
      ensures !EventOf(n, m).Piece? && (Heeded(EventOf(n, m)) <==> MissOf(n) != n)
      ensures Plain(NextOf(n)) && Rests(NextOf(n))
      ensures EventOf(n, m).MessageComplete? ==> Grammar.Place(NextOf(n)) == Grammar.DONE
    {
      hide ShapeOf, NextOf, MissOf, EventOf, Heeded, Rests, Plain, Grammar.Place;
      CallHeeded(n, m);
      CallKeeps(n, 0);
      CallRests(n);
      Grammar.MessageEnds(n, m);
    }

    /** A pause in the callback at the end of a message leaves the parser behind that message, but not yet at the start of the next. */
    ghost predicate PausedAtEnd()
      reads this
    {
      calls != [] && (calls[|calls| - 1].MessageComplete? ==> Grammar.Place(cur) == Grammar.DONE)
    }

    /** A callback without data. A pause leaves the parser where the callback leads. */
    method CallBlock(data: seq<byte>, p: nat, ghost d: Policy)
      requires Inside(data, p) && error == 0 && ShapeOf(cur).Call? && Obeys(answer, d)
      modifies this`cur, this`error, this`errorPos, this`calls
      ensures span == None
      ensures Leads(d, old(At(data, p)), Config(View().(error := 0), data[p..]))
      ensures calls == old(calls) + [EventOf(old(cur), Message())]
      ensures error == 0 || (error == HPE_PAUSED == answer(calls) && errorPos == p && Valid())
      ensures Refuses(calls) ==> error == answer(calls)
      ensures error != 0 ==> PausedAtEnd()
    {
      hide ShapeOf, NextOf, MissOf, EventOf, Leads, Sound, Add, Plain, Rests, Heeded, Grammar.Place;
      CallLeads(d, At(data, p).s, data[p..]);
      CallPlaces(cur, Message());
      ghost var n := cur;
      var event := EventOf(cur,
        Fields(length, typ, verb, major, minor, headerState, lenientHeaders, lenientLength, upgrade, finish, flags, status));
      GlueSnoc(calls, event);
      calls := calls + [event];
      var err := answer(calls);
      assert calls[|calls| - 1] == event;
      if MissOf(cur) != cur && err == HPE_PAUSED {
        error, errorPos := HPE_PAUSED, p;
        cur := NextOf(cur);
      } else {
        cur := Route(cur, err);
      }
      assert cur == Route(n, d(Glue(calls)));
      if error != 0 { LeadsValid(d, old(At(data, p)), data[p..]); }
    }

    /** The fast paths of header_value and header_field_general, on a whole window. */
    method WindowBlock(data: seq<byte>, p: nat, ghost d: Policy) returns (q: nat)
      requires Inside(data, p) && error == 0 && (cur == HEADER_VALUE || cur == HEADER_FIELD_GENERAL)
      requires p + WINDOW <= |data|
      modifies this`cur
      ensures p <= q <= |data| && (span.Some? ==> spanPos <= q) && Leads(d, old(At(data, p)), At(data, q))
    {
      hide Leads, Sound, Glue, Add, Run;
      var step;
      if cur == HEADER_VALUE {
        step := ValueWindow(data, p);
      } else {
        step := NameWindow(data, p);
      }
      q := p + step;
      if step > 0 {
        forall i | 0 <= i < step ensures Branch(cur, data[p..][i]) == Turn(cur, true) {
          assert data[p..][i] == data[p + i];
        }
        LoopLeads(d, At(data, p).s, data[p..], step);
        Slide(data, p, q);
        assert data[p..][..step] == data[p..q] && data[p..][step..] == data[q..];
      } else {
        SwitchLeads(d, At(data, p).s, data[p..]);
        cur := if cur == HEADER_VALUE then HEADER_VALUE_OTHERWISE else HEADER_FIELD_GENERAL_OTHERWISE;
      }
    }

    /** The machine itself stopped: in an error, or behind a message with an upgrade. */
    ghost predicate MachineStopped(data: seq<byte>, p: nat, d: Policy, k: Config)
      requires p <= |data| && (span.Some? ==> spanPos <= p)
      reads this
    {
      error != HPE_PAUSED && At(data, p) == Run(d, k) && (span.Some? ==> cur == DEAD)
    }

    /** How a run that ends in an error relates to the run of `k`: the machine itself stopped, or the user stopped it. */
    ghost predicate Stopped(data: seq<byte>, p: nat, d: Policy, k: Config)
      requires p <= |data| && (span.Some? ==> spanPos <= p)
      reads this
    {
      && Valid()
      && (MachineStopped(data, p, d, k) || (Refused() && span == None && Resumes(data, p, d, k)))
    }

    /** With the error cleared, the parser is on the way from `k`, and has the rest of its run before it. */
    ghost predicate Resumes(data: seq<byte>, p: nat, d: Policy, k: Config)
      requires p <= |data|
      reads this
    {
      var t := Config(View().(error := 0), data[p..]);
      Sound(t) && Reaches(d, k, t) && Run(d, t) == Run(d, k)
    }

    /** The error is the user's answer to the last callback: any error for a piece, only a pause for the rest. */
    ghost predicate Refused()
      reads this
    {
      && calls != [] && error == answer(calls)
      && (calls[|calls| - 1].Piece? || error == HPE_PAUSED) && PausedAtEnd()
    }

    /** A block that reads bytes. */
    method ReadBlock(data: seq<byte>, p: nat, ghost d: Policy) returns (q: nat)
      requires Inside(data, p) && error == 0 && !HaltsAt(data, p)
      requires var h := ShapeOf(cur); h.Switch? || h.Number? || h.Match? || h.Consume?
      modifies this`cur, this`index, this`length, this`status, this`major, this`minor
      ensures p <= q <= |data| && (span.Some? ==> spanPos <= q) && Leads(d, old(At(data, p)), At(data, q))
    {
      hide ShapeOf, Sound, Skips, Leads;
      match ShapeOf(cur)
      case Switch =>
        if sse && (cur == HEADER_VALUE || cur == HEADER_FIELD_GENERAL) && |data| - p >= WINDOW {
          q := WindowBlock(data, p, d);
        } else {
          q := SwitchBlock(data, p, d);
        }
      case Number => q := NumberBlock(data, p, d);
      case Match => q := MatchBlock(data, p, d);
      case Consume => q := ConsumeBlock(data, p, d);
    }

    lemma DeadValid(data: seq<byte>, p: nat)
      requires p <= |data| && (span.Some? ==> spanPos <= p) && cur == DEAD && Sound(At(data, p))
      ensures Valid()
    {
    }

    /** A block that returns an error. */
    method ErrorBlock(data: seq<byte>, p: nat, ghost d: Policy)
      requires Inside(data, p) && error == 0 && (ShapeOf(cur).Fail? || ShapeOf(cur).Stop?)
      modifies this`cur, this`error, this`errorPos
      ensures error != 0 && error != HPE_PAUSED && errorPos == p
      ensures Valid() && MachineStopped(data, p, d, old(At(data, p)))
    {
      hide ShapeOf, Sound, Skips, ErrorOf, Run, Glue, Add;
      if ShapeOf(cur).Fail? {
        FailStops(d, At(data, p).s, data[p..]);
        error, errorPos, cur := ErrorOf(cur), p, DEAD;
        DeadValid(data, p);
      } else {
        StopStops(d, At(data, p).s, data[p..]);
        error, errorPos, cur := HPE_PAUSED_UPGRADE, p, INVOKE_AFTER_MESSAGE_COMPLETE;
      }
    }

    /** What a callback leads to, whether or not its answer was an error. */
    lemma Answered(data: seq<byte>, q: nat, d: Policy, k: Config)
      requires q <= |data| && span == None && Leads(d, k, Config(View().(error := 0), data[q..]))
      ensures error == 0 ==> Leads(d, k, At(data, q))
      ensures error != 0 && Valid() && Refused() ==> Stopped(data, q, d, k)
    {
      hide ShapeOf, Sound, Run, Reaches, Glue, Refused, Valid;
    }

    /** One block, when it can run. */
    method Block(data: seq<byte>, p: nat, ghost d: Policy) returns (q: nat)
      requires Inside(data, p) && error == 0 && Obeys(answer, d) && !HaltsAt(data, p)
      modifies this
      ensures p <= q <= |data| && (span.Some? ==> spanPos <= q)
      ensures old(calls) <= calls && |calls| <= |old(calls)| + 1 && Heeds(|old(calls)|)
      ensures error == 0 ==> Leads(d, old(At(data, p)), At(data, q))
      ensures error != 0 ==> errorPos == q && Stopped(data, q, d, old(At(data, p)))
      ensures error != 0 && calls == old(calls) ==> MachineStopped(data, q, d, old(At(data, p)))
    {
      hide ShapeOf, Sound, Skips, KindOf, EventOf, Goto, Update, Run, Obeys, Glue, Add, Heeds, Refuses, Reaches, Leads, MachineStopped, Resumes;
      q := p;
      match ShapeOf(cur) {
        case Open => OpenBlock(data, p, d);
        case Close =>
          q := CloseBlock(data, p, d);
          Answered(data, q, d, old(At(data, p)));
        case Call =>
          CallBlock(data, p, d);
          Answered(data, p, d, old(At(data, p)));
        case Invoke =>
          InvokeLeads(d, At(data, p).s, data[p..]);
          InvokeBlock();
        case Fail => ErrorBlock(data, p, d);
        case Stop => ErrorBlock(data, p, d);
        case Park =>
        case _ => q := ReadBlock(data, p, d);
      }
      HeedsOne(old(calls));
    }

    /** The block at `cur` returns to the caller: it needs a byte and there is none, or it is no block of this graph. */
    predicate HaltsAt(data: seq<byte>, p: nat)
      requires p <= |data| && (span.Some? ==> spanPos <= p) && error == 0
      reads this
      ensures HaltsAt(data, p) <==> Halted(At(data, p))
    {
      match ShapeOf(cur)
      case Switch => p == |data|
      case Number => p == |data|
      case Match => p == |data|
      case Open => p == |data|
      case Close => Skips(cur) && p == |data|
      case Consume => length > 0 && p == |data|
      case Park => true
      case _ => false
    }

    /**
     llhttp__internal__run: block after block until the data is used up, the request line is
     reached, or there is an error. `p` bytes have then been read.
     */
    method InternalRun(data: seq<byte>, ghost d: Policy) returns (p: nat)
      requires Inside(data, 0) && error == 0 && Obeys(answer, d)
      modifies this
      ensures p <= |data| && (span.Some? ==> spanPos <= p)
      ensures old(calls) <= calls && Heeds(|old(calls)|) && (error == 0 ==> Unrefused(|old(calls)|, calls))
      ensures error == 0 ==> HaltsAt(data, p) && Inside(data, p) && At(data, p) == Run(d, old(At(data, 0)))
      ensures error != 0 ==> errorPos == p && Stopped(data, p, d, old(At(data, 0)))
      ensures error != 0 && calls == old(calls) ==> MachineStopped(data, p, d, old(At(data, 0)))
    {
      hide Sound, ShapeOf, Obeys, Glue, Unrefused, Stopped, MachineStopped;
      ghost var start := At(data, 0);
      p := 0;
      ReachesSelf(d, start);
      NoneRefused(calls);
      while !HaltsAt(data, p)
        invariant Inside(data, p) && error == 0
        invariant Reaches(d, start, At(data, p)) && Run(d, At(data, p)) == Run(d, start)
        invariant old(calls) <= calls && Unrefused(|old(calls)|, calls)
        decreases |data| - p, cur
      {
        ghost var k, before := At(data, p), calls;
        p := Block(data, p, d);
        HeedsOn(|old(calls)|, before);
        if error != 0 {
          StoppedBefore(data, p, d, start, k);
          return;
        }
        ReachesOn(d, start, k, At(data, p));
      }
    }

    /** How an execution that ends in an error relates to the run of `k`: the machine itself stopped, or the user stopped it. */
    ghost predicate Settled(data: seq<byte>, p: nat, d: Policy, k: Config)
      requires p <= |data| && (span.Some? ==> spanPos <= p)
      reads this
    {
      || MachineStopped(data, p, d, k)
      || (Refused() && Resumes(data, p, d, k))
    }

    lemma Begins(data: seq<byte>)
      requires Stable() && error == 0 && (span.Some? ==> spanPos == 0)
      ensures Inside(data, 0) && At(data, 0) == Config(Shown(), data)
    {
      hide ShapeOf, WordOf, SpanOf, Glue, Add;
      GainShown(View(), []);
      assert data[0..0] == [] && data[0..] == data;
    }

    lemma HaltRests(data: seq<byte>, p: nat)
      requires Inside(data, p) && error == 0 && HaltsAt(data, p)
      ensures Sound(Config(At(data, p).s, [])) && Rests(cur)
      ensures (p == |data| || ShapeOf(cur).Park?) && (span.Some? ==> p == |data|)
    {
    }

    /** The end of llhttp__internal_execute: a span that goes on has its part so far reported. */
    method ReportSpan(data: seq<byte>, p: nat, ghost d: Policy, ghost k: Config)
      requires Inside(data, p) && error == 0 && HaltsAt(data, p) && At(data, p) == Run(d, k)
      modifies this`calls, this`error, this`errorPos
      ensures Valid() && (span.Some? ==> spanPos <= p) && Heeds(|old(calls)|)
      ensures old(calls) <= calls && |calls| <= |old(calls)| + 1
      ensures error == 0 ==> Config(View(), data[p..]) == Run(d, k)
      ensures error != 0 ==> errorPos == p && old(calls) < calls && Refused() && Resumes(data, p, d, k)
    {
      hide ShapeOf, SpanOf, WordOf, Skips, Run, Glue, Add, HaltsAt, Reaches, Heeds, Unrefused;
      HaltRests(data, p);
      RunAgain(d, k);
      RunIsReached(d, k);
      if span.Some? {
        GlueSnoc(calls, Piece(span.value, data[spanPos..]));
        calls := calls + [Piece(span.value, data[spanPos..])];
        assert data[spanPos..] == data[spanPos..|data|];
        error := answer(calls);
        if error != 0 { errorPos := |data|; }
      }
      HeedsOne(old(calls));
    }

    /** A run that ends in an error after it came by `k` ends in it from `start`. */
    lemma StoppedBefore(data: seq<byte>, p: nat, d: Policy, start: Config, k: Config)
      requires p <= |data| && (span.Some? ==> spanPos <= p) && Stopped(data, p, d, k)
      requires Reaches(d, start, k) && Run(d, k) == Run(d, start)
      ensures Stopped(data, p, d, start) && (MachineStopped(data, p, d, k) ==> MachineStopped(data, p, d, start))
    {
      hide Run, Reaches, Sound, Refused, Glue;
      if Resumes(data, p, d, k) { ReachesOn(d, start, k, Config(View().(error := 0), data[p..])); }
    }

    /** What the machine came by, or stopped at, fits the grammar if what it started from does. */
    lemma SettledFits(data: seq<byte>, p: nat, d: Policy, k: Config)
      requires p <= |data| && (span.Some? ==> spanPos <= p) && Sound(k) && Grammar.Fits(k.s) && error != 0
      requires Settled(data, p, d, k)
      ensures Grammar.Fits(View())
    {
      hide ShapeOf, SpanOf, WordOf, Skips, Run, Glue, Add, Reaches, Sound, Grammar.PhaseOf, Grammar.Place, Refused;
      if MachineStopped(data, p, d, k) {
        RunIsReached(d, k);
        Grammar.ReachesFits(d, k, At(data, p));
        if span.Some? { Grammar.GainFits(View(), data[spanPos..p]); }
      } else {
        Grammar.ReachesFits(d, k, Config(View().(error := 0), data[p..]));
      }
    }

    /**
     llhttp__internal_execute. Without an error the parser is where the machine is after the same
     bytes. With one, it stands at `read`, and either the machine stopped there, or the user did. No
     refusal of the user is passed over, and the callbacks stay inside the grammar.
     */
    method Execute(data: seq<byte>, ghost d: Policy) returns (err: int, read: nat)
      requires Stable() && Obeys(answer, d)
      modifies this
      ensures Stable() && err == error && read <= |data| && old(calls) <= calls
      ensures old(error) != 0 ==> read == 0 && unchanged(this)
      ensures old(error) == 0 ==> Valid() && Heeds(|old(calls)|)
      ensures old(error) == 0 && Grammar.Fits(old(Shown())) ==> Grammar.Fits(View())
      ensures old(error) == 0 && err == 0 ==>
        Config(View(), data[read..]) == Run(d, old(Config(Shown(), data))) && (read == |data| || ShapeOf(cur).Park?)
      ensures old(error) == 0 && err != 0 ==>
        errorPos == read && (span.Some? ==> spanPos <= read) && Settled(data, read, d, old(Config(Shown(), data)))
      ensures old(error) == 0 && err != 0 && calls == old(calls) ==> MachineStopped(data, read, d, old(Config(Shown(), data)))
    {
      hide Sound, Run, ShapeOf, HaltsAt, Glue, Add, Obeys, Refused, Resumes, MachineStopped, Reaches, Gain, Heeds, Unrefused, Placed, Grammar.Fits;
      if error != 0 { return error, 0; }
      if span.Some? { spanPos := 0; }
      Begins(data);
      ghost var k := Config(Shown(), data);
      read := InternalRun(data, d);
      if error == 0 {
        HaltRests(data, read);
        ghost var before := calls;
        ReportSpan(data, read, d, k);
        HeedsOn(|old(calls)|, before);
      }
      ValidIsStable();
      if Grammar.Fits(k.s) {
        if error == 0 { Grammar.RunFits(d, k); } else { SettledFits(data, read, d, k); }
      }
      return error, read;
    }

    /** The result of the states between START_REQ and the headers, which are not modelled. */
    method RequestLine(verb: nat, major: nat, minor: nat, url: seq<byte>)
      requires Stable() && AtRequestLine(View())
      modifies this`cur, this`calls, this`verb, this`major, this`minor
      ensures Valid() && View() == AfterRequestLine(old(View()), verb, major, minor, url)
      ensures calls == old(calls) + [Piece(OnUrl, url), UrlComplete]
    {
      hide ShapeOf, WordOf, Skips, SpanOf, FinishOf, Glue, Add;
      Requests.LineSound(View(), verb, major, minor, url, []);
      GlueSnoc(calls, Piece(OnUrl, url));
      GlueSnoc(calls + [Piece(OnUrl, url)], UrlComplete);
      calls := calls + [Piece(OnUrl, url)] + [UrlComplete];
      this.verb := if cur == START_REQ then verb else this.verb;
      this.major, this.minor, cur := major, minor, HEADER_FIELD_START;
    }

    /** The same, when the request line is an error, after what was reported of it. */
    method RequestFault(code: int, shown: Option<seq<byte>>, urlComplete: bool)
      requires Stable() && AtRequestLine(View()) && 0 < code < HPE_PAUSED
      modifies this`cur, this`calls, this`error
      ensures Valid() && View() == Requests.AfterFault(old(View()), code, shown, urlComplete) && old(calls) <= calls
    {
      hide ShapeOf, WordOf, SpanOf, FinishOf, Glue, Add;
      if shown.Some? {
        GlueSnoc(calls, Piece(OnUrl, shown.value));
        calls := calls + [Piece(OnUrl, shown.value)];
        if urlComplete {
          GlueSnoc(calls, UrlComplete);
          calls := calls + [UrlComplete];
        }
      }
      error, cur := code, DEAD;
    }

    /**
     llhttp_finish. `finish` is 0 at the start of a message, 1 in a body that lasts until the end of
     the stream, and 2 elsewhere, so it is never anything else. For a parser whose callbacks fit:
     inside a message the end of the stream completes it, or is an invalid state; when all messages
     reported are whole, it is an invalid state exactly while the last of them was not left behind.
     */
    method Finish() returns (err: int)
      requires Stable()
      modifies this`calls
      ensures Stable() && (old(Valid()) && calls == old(calls) ==> Valid())
      ensures error != 0 ==> err == 0 && calls == old(calls)
      ensures error == 0 && cur == START ==> err == 0 && calls == old(calls)
      ensures error == 0 && (cur == SPAN_START_BODY_2 || cur == EOF) ==>
        calls == old(calls) + [MessageComplete] && err == answer(calls)
      ensures error == 0 && cur != START && cur != SPAN_START_BODY_2 && cur != EOF ==>
        err == HPE_INVALID_EOF_STATE && calls == old(calls)
      ensures error == 0 && Grammar.Fits(old(View())) && Messages.Shows(old(Glue(calls))) ==>
        calls == old(calls) && err == if Grammar.Place(cur) == Grammar.DONE then HPE_INVALID_EOF_STATE else 0
      ensures error == 0 && Grammar.Fits(old(View())) && !Messages.Shows(old(Glue(calls))) ==>
        if cur == SPAN_START_BODY_2 || cur == EOF
        then calls == old(calls) + [MessageComplete] && Messages.Shows(Glue(calls))
        else calls == old(calls) && err == HPE_INVALID_EOF_STATE
    {
      hide ShapeOf, WordOf, Skips, Glue, Add, Grammar.PhaseOf, Grammar.Place, Messages.Shows, SpanOf;
      if error != 0 { return 0; }
      ghost var s := View();
      EndOfStream(s);
      GlueSnoc(calls, MessageComplete);
      if finish == FINISH_SAFE_WITH_CB {
        calls := calls + [MessageComplete];
        return answer(calls);
      } else if finish == FINISH_SAFE {
        return 0;
      } else if finish == FINISH_UNSAFE {
        return HPE_INVALID_EOF_STATE;
      } else {
        assert false;
      }
    }

    /** Whether all messages are whole where a parser stands that fits, and what one MessageComplete more makes of them. */
    static lemma EndOfStream(s: Core)
      requires Placed(s) && Rests(s.cur) && s.cur != DEAD
      ensures Grammar.Fits(s) ==>
        (Messages.Shows(s.trace) <==> s.cur == START || Grammar.Place(s.cur) == Grammar.DONE)
      ensures Grammar.Fits(s) && (s.cur == SPAN_START_BODY_2 || s.cur == EOF) ==>
        Messages.Shows(Add(s.trace, MessageComplete))
      ensures Grammar.Place(START) != Grammar.DONE && Grammar.Place(EOF) != Grammar.DONE && Grammar.Place(SPAN_START_BODY_2) != Grammar.DONE
    {
      hide ShapeOf, WordOf, Skips, SpanOf, FinishOf, Grammar.PhaseOf, Grammar.Place, Grammar.Fits, Grammar.Step, Messages.Shows, Add;
      Messages.WholeMessages(s.trace);
      Messages.WholeMessages(Add(s.trace, MessageComplete));
      Grammar.PhaseAdd(s.trace, MessageComplete);
      Grammar.EndPlaces();
      if Grammar.Fits(s) {
        Grammar.RestsIdle(s);
        Grammar.BodyEnds(s);
      }
    }

    method Pause()
      requires Stable()
      modifies this`error
      ensures Stable() && (old(Valid()) ==> Valid())
      ensures View() == old(View()).(error := if old(error) == 0 then HPE_PAUSED else old(error))
    {
      if error == 0 { error := HPE_PAUSED; }
    }

    method Resume()
      requires Stable()
      modifies this`error
      ensures Stable() && (old(Valid()) ==> Valid())
      ensures View() == old(View()).(error := if old(error) == HPE_PAUSED then 0 else old(error))
    {
      if error == HPE_PAUSED { error := 0; }
    }

    method ResumeAfterUpgrade()
      requires Stable()
      modifies this`error
      ensures Stable() && (old(Valid()) ==> Valid())
      ensures View() == old(View()).(error := if old(error) == HPE_PAUSED_UPGRADE then 0 else old(error))
    {
      if error == HPE_PAUSED_UPGRADE { error := 0; }
    }

    method SetLenientHeaders(enabled: bool)
      requires Stable()
      modifies this`lenientHeaders
      ensures Stable() && (old(Valid()) ==> Valid())
      ensures View() == old(View()).(m := old(Message()).(lenientHeaders := enabled))
    {
      lenientHeaders := enabled;
    }

    method SetLenientChunkedLength(enabled: bool)
      requires Stable()
      modifies this`lenientLength
      ensures Stable() && (old(Valid()) ==> Valid())
      ensures View() == old(View()).(m := old(Message()).(lenientLength := enabled))
    {
      lenientLength := enabled;
    }
  }
}
