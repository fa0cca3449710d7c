/**
 The state graph of llhttp (the loose build), one node per labelled block of the generated
 parser. Straight chains of blocks that neither read the input nor call the user are one node.
 The blocks of one shape are the same code up to their constants: `ShapeOf` gives the shape, and
 the functions below it give the constants and the edges.
 */
module Graph {
  import opened Bytes

  datatype Option<T> = None | Some(value: T)

  // llparse_state_e, numbered so that an edge that reads nothing leads to a smaller number
  type Node = nat

  const DEAD: Node := 0

  // errors
  const FAIL_LF_EXPECTED: Node := 3
  const FAIL_UNEXPECTED_CONTENT_LENGTH: Node := 4
  const FAIL_INVALID_CONSTANT: Node := 5
  const FAIL_INVALID_VERSION: Node := 6
  const FAIL_INVALID_HEADER_TOKEN: Node := 7
  const FAIL_INVALID_CONTENT_LENGTH: Node := 8
  const FAIL_INVALID_CHUNK_SIZE: Node := 9
  const FAIL_INVALID_STATUS: Node := 10
  const FAIL_INVALID_TRANSFER_ENCODING: Node := 11
  const FAIL_CB_MESSAGE_BEGIN: Node := 12
  const FAIL_CB_HEADERS_COMPLETE: Node := 13
  const FAIL_CB_MESSAGE_COMPLETE: Node := 14
  const FAIL_CB_CHUNK_HEADER: Node := 15
  const FAIL_CB_CHUNK_COMPLETE: Node := 16

  // start of a message
  const START: Node := 24
  const INVOKE_UPDATE_FINISH: Node := 23
  const ON_MESSAGE_BEGIN: Node := 22
  const INVOKE_LOAD_TYPE: Node := 21
  const START_REQ_OR_RES: Node := 19
  const REQ_OR_RES_METHOD: Node := 18
  const REQ_OR_RES_METHOD_1: Node := 25
  const REQ_OR_RES_METHOD_2: Node := 26
  const REQ_OR_RES_METHOD_3: Node := 27
  const INVOKE_STORE_HEAD: Node := 28
  const INVOKE_TYPE_RESPONSE: Node := 30
  const INVOKE_TYPE_REQUEST: Node := 17
  const START_REQ: Node := 1
  const REQ_FIRST_SPACE_BEFORE_URL: Node := 2

  // status line
  const START_RES: Node := 20
  const RES_HTTP_MAJOR: Node := 29
  const RES_HTTP_DOT: Node := 31
  const RES_HTTP_MINOR: Node := 32
  const RES_HTTP_END: Node := 33
  const INVOKE_UPDATE_STATUS_CODE: Node := 41
  const RES_STATUS_CODE: Node := 40
  const RES_STATUS_CODE_OTHERWISE: Node := 39
  const RES_STATUS_START: Node := 38
  const SPAN_START_STATUS: Node := 37
  const RES_STATUS: Node := 36
  const SPAN_END_STATUS: Node := 34
  const SPAN_END_STATUS_1: Node := 35
  const RES_LINE_ALMOST_DONE: Node := 42
  const ON_STATUS_COMPLETE: Node := 64

  // header names
  const HEADER_FIELD_START: Node := 63
  const SPAN_START_HEADER_FIELD: Node := 62
  const HEADER_FIELD: Node := 48
  const HEADER_FIELD_1: Node := 49
  const HEADER_FIELD_2: Node := 50
  const HEADER_FIELD_3: Node := 51
  const HEADER_FIELD_4: Node := 52
  const HEADER_FIELD_5: Node := 53
  const HEADER_FIELD_6: Node := 54
  const HEADER_FIELD_7: Node := 55
  const INVOKE_STORE_HEADER_STATE_1: Node := 58
  const INVOKE_STORE_HEADER_STATE_2: Node := 59
  const INVOKE_STORE_HEADER_STATE_3: Node := 60
  const INVOKE_STORE_HEADER_STATE_4: Node := 61
  const HEADER_FIELD_COLON: Node := 57
  const INVOKE_RESET_HEADER_STATE: Node := 47
  const HEADER_FIELD_GENERAL: Node := 46
  const HEADER_FIELD_GENERAL_OTHERWISE: Node := 45
  const SPAN_END_HEADER_FIELD: Node := 56
  const SPAN_END_HEADER_FIELD_1: Node := 44
  const ON_HEADER_FIELD_COMPLETE: Node := 99

  // header values
  const HEADER_VALUE_DISCARD_WS: Node := 98
  const HEADER_VALUE_DISCARD_WS_ALMOST_DONE: Node := 100
  const HEADER_VALUE_DISCARD_LWS: Node := 103
  const INVOKE_LOAD_HEADER_STATE: Node := 102
  const SPAN_START_HEADER_VALUE: Node := 101
  const SPAN_END_HEADER_VALUE: Node := 66
  const SPAN_START_HEADER_VALUE_1: Node := 97
  const INVOKE_LOAD_HEADER_STATE_2: Node := 83
  const HEADER_VALUE: Node := 73
  const HEADER_VALUE_OTHERWISE: Node := 72
  const INVOKE_TEST_LENIENT_HEADERS: Node := 70
  const HEADER_VALUE_LENIENT: Node := 69
  const SPAN_END_HEADER_VALUE_1: Node := 67
  const SPAN_END_HEADER_VALUE_2: Node := 71
  const SPAN_END_HEADER_VALUE_3: Node := 68
  const HEADER_VALUE_ALMOST_DONE: Node := 65
  const HEADER_VALUE_LWS: Node := 106
  const INVOKE_LOAD_HEADER_STATE_3: Node := 105
  const ON_HEADER_VALUE_COMPLETE: Node := 104

  // values of Connection, Content-Length and Transfer-Encoding
  const HEADER_VALUE_CONNECTION: Node := 75
  const HEADER_VALUE_CONNECTION_1: Node := 84
  const HEADER_VALUE_CONNECTION_2: Node := 85
  const HEADER_VALUE_CONNECTION_3: Node := 86
  const INVOKE_STORE_CONNECTION_5: Node := 89
  const INVOKE_STORE_CONNECTION_6: Node := 90
  const INVOKE_STORE_CONNECTION_7: Node := 91
  const HEADER_VALUE_CONNECTION_WS: Node := 88
  const INVOKE_LOAD_HEADER_STATE_4: Node := 92
  const INVOKE_RESET_CONNECTION: Node := 87
  const HEADER_VALUE_CONNECTION_TOKEN: Node := 74
  const HEADER_VALUE_CONTENT_LENGTH: Node := 79
  const HEADER_VALUE_CONTENT_LENGTH_WS: Node := 78
  const INVOKE_OR_CONTENT_LENGTH: Node := 76
  const SPAN_END_HEADER_VALUE_4: Node := 93
  const SPAN_END_HEADER_VALUE_5: Node := 77
  const HEADER_VALUE_TE_CHUNKED: Node := 82
  const HEADER_VALUE_TE_CHUNKED_LAST: Node := 95
  const INVOKE_STORE_CHUNKED: Node := 94
  const HEADER_VALUE_TE_TOKEN: Node := 81
  const HEADER_VALUE_TE_TOKEN_OWS: Node := 96
  const INVOKE_RESET_TRANSFER_ENCODING: Node := 80

  // end of the header block
  const HEADERS_ALMOST_DONE: Node := 43
  const INVOKE_TEST_FLAGS: Node := 130
  const INVOKE_BEFORE_HEADERS_COMPLETE: Node := 128
  const ON_HEADERS_COMPLETE: Node := 127
  const INVOKE_SKIP_BODY: Node := 125
  const INVOKE_SKIP_FOR_UPGRADE: Node := 126
  const INVOKE_AFTER_HEADERS_COMPLETE: Node := 124

  // bodies
  const INVOKE_UPDATE_CONTENT_LENGTH: Node := 108
  const CHUNK_SIZE_DIGIT: Node := 107
  const CHUNK_SIZE: Node := 132
  const CHUNK_SIZE_OTHERWISE: Node := 131
  const CHUNK_PARAMETERS: Node := 133
  const CHUNK_SIZE_ALMOST_DONE: Node := 134
  const ON_CHUNK_HEADER: Node := 138
  const INVOKE_IS_EQUAL_CONTENT_LENGTH: Node := 137
  const INVOKE_OR_TRAILING: Node := 135
  const SPAN_START_BODY: Node := 136
  const CONSUME_CONTENT_LENGTH: Node := 115
  const SPAN_END_BODY: Node := 114
  const CHUNK_DATA_ALMOST_DONE: Node := 109
  const CHUNK_DATA_ALMOST_DONE_SKIP: Node := 139
  const ON_CHUNK_COMPLETE: Node := 140
  const ON_CHUNK_COMPLETE_1: Node := 129
  const SPAN_START_BODY_1: Node := 123
  const CONSUME_CONTENT_LENGTH_1: Node := 117
  const SPAN_END_BODY_1: Node := 116
  const INVOKE_UPDATE_FINISH_2: Node := 120
  const SPAN_START_BODY_2: Node := 119
  const EOF: Node := 118

  // end of a message
  const ON_MESSAGE_COMPLETE: Node := 121
  const ON_MESSAGE_COMPLETE_1: Node := 122
  const ON_MESSAGE_COMPLETE_2: Node := 113
  const INVOKE_IS_EQUAL_UPGRADE: Node := 112
  const PAUSE_UPGRADE: Node := 111
  const INVOKE_AFTER_MESSAGE_COMPLETE: Node := 110

  const LAST: Node := ON_CHUNK_COMPLETE

  datatype Shape = Switch | Number | Match | Consume | Open | Close | Call | Stop | Park | Invoke | Fail

  datatype Fold = Exact | ToLower | ToLowerUnsafe

  function FoldByte(f: Fold, c: byte): byte {
    match f
    case Exact => c
    case ToLower => Lower(c)
    case ToLowerUnsafe => SetBit5(c)
  }

  /** The callbacks that receive a piece of the stream. */
  datatype Kind = OnUrl | OnStatus | OnHeaderField | OnHeaderValue | OnBody

  /** One callback made to the user. A chunk header shows the user the chunk size. */
  datatype Event =
    | Piece(kind: Kind, bytes: seq<byte>)
    | MessageBegin | UrlComplete | StatusComplete | HeaderFieldComplete | HeaderValueComplete
    | HeadersComplete | ChunkHeader(size: nat) | ChunkComplete | MessageComplete

  // llhttp_errno
  const HPE_LF_EXPECTED := 3
  const HPE_UNEXPECTED_CONTENT_LENGTH := 4
  const HPE_INVALID_CONSTANT := 8
  const HPE_INVALID_VERSION := 9
  const HPE_INVALID_HEADER_TOKEN := 10
  const HPE_INVALID_CONTENT_LENGTH := 11
  const HPE_INVALID_CHUNK_SIZE := 12
  const HPE_INVALID_STATUS := 13
  const HPE_INVALID_EOF_STATE := 14
  const HPE_INVALID_TRANSFER_ENCODING := 15
  const HPE_CB_MESSAGE_BEGIN := 16
  const HPE_CB_HEADERS_COMPLETE := 17
  const HPE_CB_MESSAGE_COMPLETE := 18
  const HPE_CB_CHUNK_HEADER := 19
  const HPE_CB_CHUNK_COMPLETE := 20
  const HPE_PAUSED := 21
  const HPE_PAUSED_UPGRADE := 22

  const HTTP_BOTH := 0
  const HTTP_REQUEST := 1
  const HTTP_RESPONSE := 2

  const HTTP_HEAD := 2
  const HTTP_CONNECT := 5

  const FINISH_SAFE := 0
  const FINISH_SAFE_WITH_CB := 1
  const FINISH_UNSAFE := 2

  const MAX_UINT64: int := 0xffff_ffff_ffff_ffff

  /** The bits of `flags`. */
  datatype Flags = Flags(
    keepAlive: bool, close: bool, connectionUpgrade: bool, chunked: bool, upgrade: bool,
    contentLength: bool, skipBody: bool, trailing: bool, transferEncoding: bool)

  const NO_FLAGS := Flags(false, false, false, false, false, false, false, false, false)

  /** The fields of llhttp__internal_t that describe the message. */
  datatype Fields = Fields(
    length: nat, typ: nat, verb: nat, major: nat, minor: nat, headerState: nat,
    lenientHeaders: bool, lenientLength: bool, upgrade: bool, finish: nat, flags: Flags, status: nat)

  /**
   A parser state: where the machine is, its place in a word, the open span, the error, the
   callbacks made so far with adjacent pieces glued, and the message fields.
   */
  datatype Core = Core(
    cur: Node, index: nat, span: Option<Kind>, error: int, trace: seq<Event>, m: Fields)

  function ShapeOf(n: Node): Shape {
    match n
    case FAIL_LF_EXPECTED => Fail
    case FAIL_UNEXPECTED_CONTENT_LENGTH => Fail
    case FAIL_INVALID_CONSTANT => Fail
    case FAIL_INVALID_VERSION => Fail
    case FAIL_INVALID_HEADER_TOKEN => Fail
    case FAIL_INVALID_CONTENT_LENGTH => Fail
    case FAIL_INVALID_CHUNK_SIZE => Fail
    case FAIL_INVALID_STATUS => Fail
    case FAIL_INVALID_TRANSFER_ENCODING => Fail
    case FAIL_CB_MESSAGE_BEGIN => Fail
    case FAIL_CB_HEADERS_COMPLETE => Fail
    case FAIL_CB_MESSAGE_COMPLETE => Fail
    case FAIL_CB_CHUNK_HEADER => Fail
    case FAIL_CB_CHUNK_COMPLETE => Fail
    case START => Switch
    case INVOKE_UPDATE_FINISH => Invoke
    case ON_MESSAGE_BEGIN => Call
    case INVOKE_LOAD_TYPE => Invoke
    case START_REQ_OR_RES => Switch
    case REQ_OR_RES_METHOD => Switch
    case REQ_OR_RES_METHOD_1 => Switch
    case REQ_OR_RES_METHOD_2 => Match
    case REQ_OR_RES_METHOD_3 => Match
    case INVOKE_STORE_HEAD => Invoke
    case INVOKE_TYPE_RESPONSE => Invoke
    case INVOKE_TYPE_REQUEST => Invoke
    case START_REQ => Park
    case REQ_FIRST_SPACE_BEFORE_URL => Park
    case START_RES => Match
    case RES_HTTP_MAJOR => Number
    case RES_HTTP_DOT => Switch
    case RES_HTTP_MINOR => Number
    case RES_HTTP_END => Switch
    case INVOKE_UPDATE_STATUS_CODE => Invoke
    case RES_STATUS_CODE => Number
    case RES_STATUS_CODE_OTHERWISE => Switch
    case RES_STATUS_START => Switch
    case SPAN_START_STATUS => Open
    case RES_STATUS => Switch
    case SPAN_END_STATUS => Close
    case SPAN_END_STATUS_1 => Close
    case RES_LINE_ALMOST_DONE => Switch
    case ON_STATUS_COMPLETE => Call
    case HEADER_FIELD_START => Switch
    case SPAN_START_HEADER_FIELD => Open
    case HEADER_FIELD => Switch
    case HEADER_FIELD_1 => Match
    case HEADER_FIELD_2 => Switch
    case HEADER_FIELD_3 => Match
    case HEADER_FIELD_4 => Match
    case HEADER_FIELD_5 => Match
    case HEADER_FIELD_6 => Match
    case HEADER_FIELD_7 => Match
    case INVOKE_STORE_HEADER_STATE_1 => Invoke
    case INVOKE_STORE_HEADER_STATE_2 => Invoke
    case INVOKE_STORE_HEADER_STATE_3 => Invoke
    case INVOKE_STORE_HEADER_STATE_4 => Invoke
    case HEADER_FIELD_COLON => Switch
    case INVOKE_RESET_HEADER_STATE => Invoke
    case HEADER_FIELD_GENERAL => Switch
    case HEADER_FIELD_GENERAL_OTHERWISE => Switch
    case SPAN_END_HEADER_FIELD => Close
    case SPAN_END_HEADER_FIELD_1 => Close
    case ON_HEADER_FIELD_COMPLETE => Call
    case HEADER_VALUE_DISCARD_WS => Switch
    case HEADER_VALUE_DISCARD_WS_ALMOST_DONE => Switch
    case HEADER_VALUE_DISCARD_LWS => Switch
    case INVOKE_LOAD_HEADER_STATE => Invoke
    case SPAN_START_HEADER_VALUE => Open
    case SPAN_END_HEADER_VALUE => Close
    case SPAN_START_HEADER_VALUE_1 => Open
    case INVOKE_LOAD_HEADER_STATE_2 => Invoke
    case HEADER_VALUE => Switch
    case HEADER_VALUE_OTHERWISE => Switch
    case INVOKE_TEST_LENIENT_HEADERS => Invoke
    case HEADER_VALUE_LENIENT => Switch
    case SPAN_END_HEADER_VALUE_1 => Close
    case SPAN_END_HEADER_VALUE_2 => Close
    case SPAN_END_HEADER_VALUE_3 => Close
    case HEADER_VALUE_ALMOST_DONE => Switch
    case HEADER_VALUE_LWS => Switch
    case INVOKE_LOAD_HEADER_STATE_3 => Invoke
    case ON_HEADER_VALUE_COMPLETE => Call
    case HEADER_VALUE_CONNECTION => Switch
    case HEADER_VALUE_CONNECTION_1 => Match
    case HEADER_VALUE_CONNECTION_2 => Match
    case HEADER_VALUE_CONNECTION_3 => Match
    case INVOKE_STORE_CONNECTION_5 => Invoke
    case INVOKE_STORE_CONNECTION_6 => Invoke
    case INVOKE_STORE_CONNECTION_7 => Invoke
    case HEADER_VALUE_CONNECTION_WS => Switch
    case INVOKE_LOAD_HEADER_STATE_4 => Invoke
    case INVOKE_RESET_CONNECTION => Invoke
    case HEADER_VALUE_CONNECTION_TOKEN => Switch
    case HEADER_VALUE_CONTENT_LENGTH => Number
    case HEADER_VALUE_CONTENT_LENGTH_WS => Switch
    case INVOKE_OR_CONTENT_LENGTH => Invoke
    case SPAN_END_HEADER_VALUE_4 => Close
    case SPAN_END_HEADER_VALUE_5 => Close
    case HEADER_VALUE_TE_CHUNKED => Match
    case HEADER_VALUE_TE_CHUNKED_LAST => Switch
    case INVOKE_STORE_CHUNKED => Invoke
    case HEADER_VALUE_TE_TOKEN => Switch
    case HEADER_VALUE_TE_TOKEN_OWS => Switch
    case INVOKE_RESET_TRANSFER_ENCODING => Invoke
    case HEADERS_ALMOST_DONE => Switch
    case INVOKE_TEST_FLAGS => Invoke
    case INVOKE_BEFORE_HEADERS_COMPLETE => Invoke
    case ON_HEADERS_COMPLETE => Call
    case INVOKE_SKIP_BODY => Invoke
    case INVOKE_SKIP_FOR_UPGRADE => Invoke
    case INVOKE_AFTER_HEADERS_COMPLETE => Invoke
    case INVOKE_UPDATE_CONTENT_LENGTH => Invoke
    case CHUNK_SIZE_DIGIT => Number
    case CHUNK_SIZE => Number
    case CHUNK_SIZE_OTHERWISE => Switch
    case CHUNK_PARAMETERS => Switch
    case CHUNK_SIZE_ALMOST_DONE => Switch
    case ON_CHUNK_HEADER => Call
    case INVOKE_IS_EQUAL_CONTENT_LENGTH => Invoke
    case INVOKE_OR_TRAILING => Invoke
    case SPAN_START_BODY => Open
    case CONSUME_CONTENT_LENGTH => Consume
    case SPAN_END_BODY => Close
    case CHUNK_DATA_ALMOST_DONE => Switch
    case CHUNK_DATA_ALMOST_DONE_SKIP => Switch
    case ON_CHUNK_COMPLETE => Call
    case ON_CHUNK_COMPLETE_1 => Call
    case SPAN_START_BODY_1 => Open
    case CONSUME_CONTENT_LENGTH_1 => Consume
    case SPAN_END_BODY_1 => Close
    case INVOKE_UPDATE_FINISH_2 => Invoke
    case SPAN_START_BODY_2 => Open
    case EOF => Switch
    case ON_MESSAGE_COMPLETE => Call
    case ON_MESSAGE_COMPLETE_1 => Call
    case ON_MESSAGE_COMPLETE_2 => Call
    case INVOKE_IS_EQUAL_UPGRADE => Invoke
    case PAUSE_UPGRADE => Stop
    case INVOKE_AFTER_MESSAGE_COMPLETE => Invoke
    case _ => Park
  }

  /** Where a match, a consume, a span end point or a callback that proceeds leads. */
  function NextOf(n: Node): Node {
    match n
    case ON_MESSAGE_BEGIN => INVOKE_LOAD_TYPE
    case REQ_OR_RES_METHOD_2 => INVOKE_STORE_HEAD
    case REQ_OR_RES_METHOD_3 => INVOKE_TYPE_RESPONSE
    case START_RES => RES_HTTP_MAJOR
    case SPAN_START_STATUS => RES_STATUS
    case SPAN_END_STATUS => ON_STATUS_COMPLETE
    case SPAN_END_STATUS_1 => RES_LINE_ALMOST_DONE
    case ON_STATUS_COMPLETE => HEADER_FIELD_START
    case SPAN_START_HEADER_FIELD => HEADER_FIELD
    case HEADER_FIELD_1 => HEADER_FIELD_2
    case HEADER_FIELD_3 => INVOKE_STORE_HEADER_STATE_1
    case HEADER_FIELD_4 => INVOKE_STORE_HEADER_STATE_2
    case HEADER_FIELD_5 => INVOKE_STORE_HEADER_STATE_1
    case HEADER_FIELD_6 => INVOKE_STORE_HEADER_STATE_3
    case HEADER_FIELD_7 => INVOKE_STORE_HEADER_STATE_4
    case SPAN_END_HEADER_FIELD => HEADER_VALUE_DISCARD_WS
    case SPAN_END_HEADER_FIELD_1 => ON_HEADER_FIELD_COMPLETE
    case ON_HEADER_FIELD_COMPLETE => HEADER_VALUE_DISCARD_WS
    case SPAN_START_HEADER_VALUE => SPAN_END_HEADER_VALUE
    case SPAN_END_HEADER_VALUE => HEADER_FIELD_START
    case SPAN_START_HEADER_VALUE_1 => INVOKE_LOAD_HEADER_STATE_2
    case SPAN_END_HEADER_VALUE_1 => HEADER_VALUE_ALMOST_DONE
    case SPAN_END_HEADER_VALUE_2 => HEADER_VALUE_ALMOST_DONE
    case SPAN_END_HEADER_VALUE_3 => HEADER_VALUE_ALMOST_DONE
    case ON_HEADER_VALUE_COMPLETE => HEADER_FIELD_START
    case HEADER_VALUE_CONNECTION_1 => INVOKE_STORE_CONNECTION_6
    case HEADER_VALUE_CONNECTION_2 => INVOKE_STORE_CONNECTION_5
    case HEADER_VALUE_CONNECTION_3 => INVOKE_STORE_CONNECTION_7
    case SPAN_END_HEADER_VALUE_4 => FAIL_INVALID_CONTENT_LENGTH
    case SPAN_END_HEADER_VALUE_5 => FAIL_INVALID_CONTENT_LENGTH
    case HEADER_VALUE_TE_CHUNKED => HEADER_VALUE_TE_CHUNKED_LAST
    case ON_HEADERS_COMPLETE => INVOKE_AFTER_HEADERS_COMPLETE
    case ON_CHUNK_HEADER => INVOKE_IS_EQUAL_CONTENT_LENGTH
    case SPAN_START_BODY => CONSUME_CONTENT_LENGTH
    case CONSUME_CONTENT_LENGTH => SPAN_END_BODY
    case SPAN_END_BODY => CHUNK_DATA_ALMOST_DONE
    case ON_CHUNK_COMPLETE => INVOKE_UPDATE_CONTENT_LENGTH
    case ON_CHUNK_COMPLETE_1 => ON_MESSAGE_COMPLETE_2
    case SPAN_START_BODY_1 => CONSUME_CONTENT_LENGTH_1
    case CONSUME_CONTENT_LENGTH_1 => SPAN_END_BODY_1
    case SPAN_END_BODY_1 => ON_MESSAGE_COMPLETE_2
    case SPAN_START_BODY_2 => EOF
    case ON_MESSAGE_COMPLETE => INVOKE_AFTER_MESSAGE_COMPLETE
    case ON_MESSAGE_COMPLETE_1 => PAUSE_UPGRADE
    case ON_MESSAGE_COMPLETE_2 => INVOKE_IS_EQUAL_UPGRADE
    case _ => DEAD
  }

  /** Where a mismatch, a byte that is no digit, or a refused callback leads; a callback whose answer is ignored has no such edge. */
  function MissOf(n: Node): Node {
    match n
    case RES_HTTP_MAJOR => FAIL_INVALID_VERSION
    case RES_HTTP_MINOR => FAIL_INVALID_VERSION
    case RES_STATUS_CODE => RES_STATUS_CODE_OTHERWISE
    case HEADER_VALUE_CONTENT_LENGTH => HEADER_VALUE_CONTENT_LENGTH_WS
    case CHUNK_SIZE_DIGIT => FAIL_INVALID_CHUNK_SIZE
    case CHUNK_SIZE => CHUNK_SIZE_OTHERWISE
    case ON_MESSAGE_BEGIN => FAIL_CB_MESSAGE_BEGIN
    case REQ_OR_RES_METHOD_2 => FAIL_INVALID_CONSTANT
    case REQ_OR_RES_METHOD_3 => FAIL_INVALID_CONSTANT
    case START_RES => FAIL_INVALID_CONSTANT
    case HEADER_FIELD_1 => INVOKE_RESET_HEADER_STATE
    case HEADER_FIELD_3 => INVOKE_RESET_HEADER_STATE
    case HEADER_FIELD_4 => INVOKE_RESET_HEADER_STATE
    case HEADER_FIELD_5 => INVOKE_RESET_HEADER_STATE
    case HEADER_FIELD_6 => INVOKE_RESET_HEADER_STATE
    case HEADER_FIELD_7 => INVOKE_RESET_HEADER_STATE
    case HEADER_VALUE_CONNECTION_1 => HEADER_VALUE_CONNECTION_TOKEN
    case HEADER_VALUE_CONNECTION_2 => HEADER_VALUE_CONNECTION_TOKEN
    case HEADER_VALUE_CONNECTION_3 => HEADER_VALUE_CONNECTION_TOKEN
    case HEADER_VALUE_TE_CHUNKED => HEADER_VALUE_TE_TOKEN
    case ON_HEADERS_COMPLETE => FAIL_CB_HEADERS_COMPLETE
    case ON_CHUNK_HEADER => FAIL_CB_CHUNK_HEADER
    case ON_CHUNK_COMPLETE => FAIL_CB_CHUNK_COMPLETE
    case ON_CHUNK_COMPLETE_1 => FAIL_CB_CHUNK_COMPLETE
    case ON_MESSAGE_COMPLETE => FAIL_CB_MESSAGE_COMPLETE
    case ON_MESSAGE_COMPLETE_1 => FAIL_CB_MESSAGE_COMPLETE
    case ON_MESSAGE_COMPLETE_2 => FAIL_CB_MESSAGE_COMPLETE
    case _ => n
  }

  /** The span that is started or ended. */
  function KindOf(n: Node): Kind {
    match n
    case SPAN_START_STATUS => OnStatus
    case SPAN_END_STATUS => OnStatus
    case SPAN_END_STATUS_1 => OnStatus
    case SPAN_START_HEADER_FIELD => OnHeaderField
    case SPAN_END_HEADER_FIELD => OnHeaderField
    case SPAN_END_HEADER_FIELD_1 => OnHeaderField
    case SPAN_START_HEADER_VALUE => OnHeaderValue
    case SPAN_END_HEADER_VALUE => OnHeaderValue
    case SPAN_START_HEADER_VALUE_1 => OnHeaderValue
    case SPAN_END_HEADER_VALUE_1 => OnHeaderValue
    case SPAN_END_HEADER_VALUE_2 => OnHeaderValue
    case SPAN_END_HEADER_VALUE_3 => OnHeaderValue
    case SPAN_END_HEADER_VALUE_4 => OnHeaderValue
    case SPAN_END_HEADER_VALUE_5 => OnHeaderValue
    case SPAN_START_BODY => OnBody
    case SPAN_END_BODY => OnBody
    case SPAN_START_BODY_1 => OnBody
    case SPAN_END_BODY_1 => OnBody
    case SPAN_START_BODY_2 => OnBody
    case _ => OnBody
  }

  /** The span ends that step over the byte that ended the span. */
  predicate Skips(n: Node) {
    match n
    case SPAN_END_STATUS => true
    case SPAN_END_STATUS_1 => true
    case SPAN_END_HEADER_FIELD => true
    case SPAN_END_HEADER_FIELD_1 => true
    case SPAN_END_HEADER_VALUE_2 => true
    case SPAN_END_HEADER_VALUE_3 => true
    case _ => false
  }

  /** The word to match. */
  function WordOf(n: Node): seq<byte> {
    match n
    case REQ_OR_RES_METHOD_2 => W_AD
    case REQ_OR_RES_METHOD_3 => W_TP
    case START_RES => W_HTTP
    case HEADER_FIELD_1 => W_ON
    case HEADER_FIELD_3 => W_ECTION
    case HEADER_FIELD_4 => W_ENT_LENGTH
    case HEADER_FIELD_5 => W_ROXY_CONNECTION
    case HEADER_FIELD_6 => W_RANSFER_ENCODING
    case HEADER_FIELD_7 => W_PGRADE
    case HEADER_VALUE_CONNECTION_1 => W_LOSE
    case HEADER_VALUE_CONNECTION_2 => W_EEP_ALIVE
    case HEADER_VALUE_CONNECTION_3 => W_PGRADE
    case HEADER_VALUE_TE_CHUNKED => W_CHUNKED
    case _ => []
  }

  /** How a byte is folded before it is compared. */
  function FoldOf(n: Node): Fold {
    match n
    case REQ_OR_RES_METHOD_2 => Exact
    case REQ_OR_RES_METHOD_3 => Exact
    case START_RES => Exact
    case HEADER_FIELD_1 => ToLower
    case HEADER_FIELD_3 => ToLower
    case HEADER_FIELD_4 => ToLower
    case HEADER_FIELD_5 => ToLower
    case HEADER_FIELD_6 => ToLower
    case HEADER_FIELD_7 => ToLower
    case HEADER_VALUE_CONNECTION_1 => ToLower
    case HEADER_VALUE_CONNECTION_2 => ToLower
    case HEADER_VALUE_CONNECTION_3 => ToLower
    case HEADER_VALUE_TE_CHUNKED => ToLowerUnsafe
    case _ => Exact
  }

  /** Where a switch goes, and whether it steps over the byte it looked at. */
  datatype Turn = Turn(next: Node, over: bool)

  function Branch(n: Node, c: byte): Turn {
    match n
    case START => if c == LF || c == CR then Turn(START, true) else Turn(INVOKE_UPDATE_FINISH, false)
    case START_REQ_OR_RES => if c == 72 then Turn(REQ_OR_RES_METHOD, false) else Turn(INVOKE_TYPE_REQUEST, false)
    case REQ_OR_RES_METHOD => if c == 72 then Turn(REQ_OR_RES_METHOD_1, true) else Turn(FAIL_INVALID_CONSTANT, false)
    case REQ_OR_RES_METHOD_1 =>
      if c == 69 then Turn(REQ_OR_RES_METHOD_2, true)
      else if c == 84 then Turn(REQ_OR_RES_METHOD_3, true)
      else Turn(FAIL_INVALID_CONSTANT, false)
    case RES_HTTP_DOT => if c == 46 then Turn(RES_HTTP_MINOR, true) else Turn(FAIL_INVALID_VERSION, false)
    case RES_HTTP_END => if c == SP then Turn(INVOKE_UPDATE_STATUS_CODE, true) else Turn(FAIL_INVALID_VERSION, false)
    case RES_STATUS_CODE_OTHERWISE =>
      if c == LF || c == CR then Turn(RES_STATUS_START, false)
      else if c == SP then Turn(RES_STATUS_START, true)
      else Turn(FAIL_INVALID_STATUS, false)
    case RES_STATUS_START =>
      if c == LF then Turn(ON_STATUS_COMPLETE, true)
      else if c == CR then Turn(RES_LINE_ALMOST_DONE, true)
      else Turn(SPAN_START_STATUS, false)
    case RES_STATUS =>
      if c == LF then Turn(SPAN_END_STATUS, false)
      else if c == CR then Turn(SPAN_END_STATUS_1, false)
      else Turn(RES_STATUS, true)
    case RES_LINE_ALMOST_DONE => Turn(ON_STATUS_COMPLETE, true)
    case HEADER_FIELD_START =>
      if c == LF then Turn(HEADERS_ALMOST_DONE, false)
      else if c == CR then Turn(HEADERS_ALMOST_DONE, true)
      else Turn(SPAN_START_HEADER_FIELD, false)
    case HEADER_FIELD =>
      var l := Lower(c);
      if l == 99 then Turn(HEADER_FIELD_1, true)
      else if l == 112 then Turn(HEADER_FIELD_5, true)
      else if l == 116 then Turn(HEADER_FIELD_6, true)
      else if l == 117 then Turn(HEADER_FIELD_7, true)
      else Turn(INVOKE_RESET_HEADER_STATE, false)
    case HEADER_FIELD_2 =>
      var l := Lower(c);
      if l == 110 then Turn(HEADER_FIELD_3, true)
      else if l == 116 then Turn(HEADER_FIELD_4, true)
      else Turn(INVOKE_RESET_HEADER_STATE, false)
    case HEADER_FIELD_COLON =>
      if c == SP then Turn(HEADER_FIELD_COLON, true)
      else if c == COLON then Turn(SPAN_END_HEADER_FIELD, false)
      else Turn(INVOKE_RESET_HEADER_STATE, false)
    case HEADER_FIELD_GENERAL =>
      if IsNameByte(c) then Turn(HEADER_FIELD_GENERAL, true) else Turn(HEADER_FIELD_GENERAL_OTHERWISE, false)
    case HEADER_FIELD_GENERAL_OTHERWISE =>
      if c == COLON then Turn(SPAN_END_HEADER_FIELD_1, false) else Turn(FAIL_INVALID_HEADER_TOKEN, false)
    case HEADER_VALUE_DISCARD_WS =>
      if c == TAB || c == SP then Turn(HEADER_VALUE_DISCARD_WS, true)
      else if c == LF then Turn(HEADER_VALUE_DISCARD_LWS, true)
      else if c == CR then Turn(HEADER_VALUE_DISCARD_WS_ALMOST_DONE, true)
      else Turn(SPAN_START_HEADER_VALUE_1, false)
    case HEADER_VALUE_DISCARD_WS_ALMOST_DONE => Turn(HEADER_VALUE_DISCARD_LWS, true)
    case HEADER_VALUE_DISCARD_LWS =>
      if c == TAB || c == SP then Turn(HEADER_VALUE_DISCARD_WS, true) else Turn(INVOKE_LOAD_HEADER_STATE, false)
    case HEADER_VALUE => if IsValueByte(c) then Turn(HEADER_VALUE, true) else Turn(HEADER_VALUE_OTHERWISE, false)
    case HEADER_VALUE_OTHERWISE =>
      if c == LF then Turn(SPAN_END_HEADER_VALUE_1, false)
      else if c == CR then Turn(SPAN_END_HEADER_VALUE_2, false)
      else Turn(INVOKE_TEST_LENIENT_HEADERS, false)
    case HEADER_VALUE_LENIENT =>
      if c == LF then Turn(SPAN_END_HEADER_VALUE_1, false)
      else if c == CR then Turn(SPAN_END_HEADER_VALUE_3, false)
      else Turn(HEADER_VALUE_LENIENT, true)
    case HEADER_VALUE_ALMOST_DONE =>
      if c == LF then Turn(HEADER_VALUE_LWS, true) else Turn(FAIL_LF_EXPECTED, false)
    case HEADER_VALUE_LWS =>
      if c == TAB || c == SP then Turn(SPAN_START_HEADER_VALUE_1, false) else Turn(INVOKE_LOAD_HEADER_STATE_3, false)
    case HEADER_VALUE_CONNECTION =>
      var l := Lower(c);
      if c == TAB || c == SP then Turn(HEADER_VALUE_CONNECTION, true)
      else if l == 99 then Turn(HEADER_VALUE_CONNECTION_1, true)
      else if l == 107 then Turn(HEADER_VALUE_CONNECTION_2, true)
      else if l == 117 then Turn(HEADER_VALUE_CONNECTION_3, true)
      else Turn(HEADER_VALUE_CONNECTION_TOKEN, false)
    case HEADER_VALUE_CONNECTION_WS =>
      if c == LF || c == CR then Turn(HEADER_VALUE_OTHERWISE, false)
      else if c == SP then Turn(HEADER_VALUE_CONNECTION_WS, true)
      else if c == COMMA then Turn(INVOKE_LOAD_HEADER_STATE_4, true)
      else Turn(INVOKE_RESET_CONNECTION, false)
    case HEADER_VALUE_CONNECTION_TOKEN =>
      if c == COMMA then Turn(HEADER_VALUE_CONNECTION, true)
      else if IsValueByte(c) then Turn(HEADER_VALUE_CONNECTION_TOKEN, true)
      else Turn(HEADER_VALUE_OTHERWISE, false)
    case HEADER_VALUE_CONTENT_LENGTH_WS =>
      if c == LF || c == CR then Turn(INVOKE_OR_CONTENT_LENGTH, false)
      else if c == SP then Turn(HEADER_VALUE_CONTENT_LENGTH_WS, true)
      else Turn(SPAN_END_HEADER_VALUE_5, false)
    case HEADER_VALUE_TE_CHUNKED_LAST =>
      if c == LF || c == CR then Turn(INVOKE_STORE_CHUNKED, false)
      else if c == SP then Turn(HEADER_VALUE_TE_CHUNKED_LAST, true)
      else Turn(HEADER_VALUE_TE_CHUNKED, false)
    case HEADER_VALUE_TE_TOKEN_OWS =>
      if c == TAB || c == SP then Turn(HEADER_VALUE_TE_TOKEN_OWS, true) else Turn(HEADER_VALUE_TE_CHUNKED, false)
    case HEADER_VALUE_TE_TOKEN =>
      if c == COMMA then Turn(HEADER_VALUE_TE_TOKEN_OWS, true)
      else if IsValueByte(c) then Turn(HEADER_VALUE_TE_TOKEN, true)
      else Turn(INVOKE_RESET_TRANSFER_ENCODING, false)
    case HEADERS_ALMOST_DONE => Turn(INVOKE_TEST_FLAGS, true)
    case CHUNK_SIZE_OTHERWISE =>
      if c == CR then Turn(CHUNK_SIZE_ALMOST_DONE, true)
      else if c == SP || c == SEMICOLON then Turn(CHUNK_PARAMETERS, true)
      else Turn(FAIL_INVALID_CHUNK_SIZE, false)
    case CHUNK_PARAMETERS => if c == CR then Turn(CHUNK_SIZE_ALMOST_DONE, true) else Turn(CHUNK_PARAMETERS, true)
    case CHUNK_SIZE_ALMOST_DONE => Turn(ON_CHUNK_HEADER, true)
    case CHUNK_DATA_ALMOST_DONE => Turn(CHUNK_DATA_ALMOST_DONE_SKIP, true)
    case CHUNK_DATA_ALMOST_DONE_SKIP => Turn(ON_CHUNK_COMPLETE, true)
    case EOF => Turn(EOF, true)
    case _ => Turn(DEAD, true)
  }

  /** The two decimal mul_add blocks: `10 x + d` in an unsigned field whose largest value is `max`. */
  function MulAdd10(x: nat, d: nat, max: nat): (nat, bool) {
    if x > max / 10 then (x, false)
    else if 10 * x > max - d then (10 * x, false)
    else (10 * x + d, true)
  }

  /** The hexadecimal mul_add block on the 64-bit content_length. */
  function MulAdd16(x: nat, d: nat): (nat, bool) {
    if x > MAX_UINT64 / 16 then (x, false)
    else if 16 * x > MAX_UINT64 - d then (16 * x, false)
    else (16 * x + d, true)
  }

  /** llhttp_message_needs_eof */
  predicate MessageNeedsEof(m: Fields) {
    if m.typ == HTTP_REQUEST then false
    else if m.status / 100 == 1 || m.status == 204 || m.status == 304 || m.flags.skipBody then false
    else if m.flags.transferEncoding && !m.flags.chunked then true
    else if m.flags.chunked || m.flags.contentLength then false
    else true
  }

  /** llhttp__before_headers_complete */
  function UpgradeDecision(m: Fields): bool {
    if m.flags.upgrade && m.flags.connectionUpgrade then m.typ == HTTP_REQUEST || m.status == 101
    else m.verb == HTTP_CONNECT
  }

  /** llhttp__after_headers_complete, and the switch on its result */
  function BodyDecision(m: Fields): Node {
    var hasBody := m.flags.chunked || m.length > 0;
    if m.upgrade && (m.verb == HTTP_CONNECT || m.flags.skipBody || !hasBody) then ON_MESSAGE_COMPLETE_1
    else if m.flags.skipBody then ON_MESSAGE_COMPLETE
    else if m.flags.chunked then INVOKE_UPDATE_CONTENT_LENGTH
    else if m.flags.transferEncoding then
      if m.typ == HTTP_REQUEST && !m.lenientLength then FAIL_INVALID_TRANSFER_ENCODING else INVOKE_UPDATE_FINISH_2
    else if !m.flags.contentLength then
      if !MessageNeedsEof(m) then ON_MESSAGE_COMPLETE else INVOKE_UPDATE_FINISH_2
    else if m.length == 0 then ON_MESSAGE_COMPLETE
    else SPAN_START_BODY_1
  }

  /** The flag that a stored Connection or Transfer-Encoding option stands for. */
  function OrHeaderFlag(m: Fields): Fields {
    if m.headerState == 5 then m.(flags := m.flags.(keepAlive := true), headerState := 1)
    else if m.headerState == 6 then m.(flags := m.flags.(close := true), headerState := 1)
    else if m.headerState == 7 then m.(flags := m.flags.(connectionUpgrade := true), headerState := 1)
    else if m.headerState == 8 then m.(flags := m.flags.(chunked := true))
    else m
  }

  /** Where a silent block leads. */
  function Goto(n: Node, m: Fields): Node {
    match n
    case INVOKE_UPDATE_FINISH => ON_MESSAGE_BEGIN
    case INVOKE_LOAD_TYPE =>
      if m.typ == HTTP_REQUEST then START_REQ else if m.typ == HTTP_RESPONSE then START_RES else START_REQ_OR_RES
    case INVOKE_STORE_HEAD => REQ_FIRST_SPACE_BEFORE_URL
    case INVOKE_TYPE_RESPONSE => RES_HTTP_MAJOR
    case INVOKE_TYPE_REQUEST => START_REQ
    case INVOKE_UPDATE_STATUS_CODE => RES_STATUS_CODE
    case INVOKE_RESET_HEADER_STATE => HEADER_FIELD_GENERAL
    case INVOKE_LOAD_HEADER_STATE =>
      if m.headerState == 2 then FAIL_INVALID_CONTENT_LENGTH else SPAN_START_HEADER_VALUE
    case INVOKE_LOAD_HEADER_STATE_2 =>
      if m.headerState == 1 then HEADER_VALUE_CONNECTION
      else if m.headerState == 2 then
        if m.flags.contentLength then FAIL_UNEXPECTED_CONTENT_LENGTH else HEADER_VALUE_CONTENT_LENGTH
      else if m.headerState == 3 then HEADER_VALUE_TE_CHUNKED
      else HEADER_VALUE
    case INVOKE_TEST_LENIENT_HEADERS =>
      if m.lenientHeaders then HEADER_VALUE_LENIENT else FAIL_INVALID_HEADER_TOKEN
    case INVOKE_LOAD_HEADER_STATE_3 => ON_HEADER_VALUE_COMPLETE
    case INVOKE_LOAD_HEADER_STATE_4 => HEADER_VALUE_CONNECTION
    case INVOKE_RESET_CONNECTION => HEADER_VALUE_CONNECTION_TOKEN
    case INVOKE_OR_CONTENT_LENGTH => HEADER_VALUE_OTHERWISE
    case INVOKE_STORE_CHUNKED => HEADER_VALUE_OTHERWISE
    case INVOKE_RESET_TRANSFER_ENCODING => HEADER_VALUE
    case INVOKE_TEST_FLAGS =>
      if m.flags.trailing then ON_CHUNK_COMPLETE_1
      else if m.flags.transferEncoding && m.flags.contentLength && !m.lenientLength
      then FAIL_UNEXPECTED_CONTENT_LENGTH
      else INVOKE_BEFORE_HEADERS_COMPLETE
    case INVOKE_BEFORE_HEADERS_COMPLETE => ON_HEADERS_COMPLETE
    case INVOKE_SKIP_BODY => INVOKE_AFTER_HEADERS_COMPLETE
    case INVOKE_SKIP_FOR_UPGRADE => INVOKE_AFTER_HEADERS_COMPLETE
    case INVOKE_AFTER_HEADERS_COMPLETE => BodyDecision(m)
    case INVOKE_UPDATE_CONTENT_LENGTH => CHUNK_SIZE_DIGIT
    case INVOKE_IS_EQUAL_CONTENT_LENGTH => if m.length == 0 then INVOKE_OR_TRAILING else SPAN_START_BODY
    case INVOKE_OR_TRAILING => HEADER_FIELD_START
    case INVOKE_UPDATE_FINISH_2 => SPAN_START_BODY_2
    case INVOKE_IS_EQUAL_UPGRADE => if m.upgrade then PAUSE_UPGRADE else INVOKE_AFTER_MESSAGE_COMPLETE
    case INVOKE_AFTER_MESSAGE_COMPLETE => START
    case INVOKE_STORE_HEADER_STATE_1 => HEADER_FIELD_COLON
    case INVOKE_STORE_HEADER_STATE_2 => HEADER_FIELD_COLON
    case INVOKE_STORE_HEADER_STATE_3 => HEADER_FIELD_COLON
    case INVOKE_STORE_HEADER_STATE_4 => HEADER_FIELD_COLON
    case INVOKE_STORE_CONNECTION_5 => HEADER_VALUE_CONNECTION_WS
    case INVOKE_STORE_CONNECTION_6 => HEADER_VALUE_CONNECTION_WS
    case INVOKE_STORE_CONNECTION_7 => HEADER_VALUE_CONNECTION_WS
    case _ => DEAD
  }

  /** What a silent block does to the message fields. */
  function Update(n: Node, m: Fields): Fields {
    match n
    case INVOKE_UPDATE_FINISH => m.(finish := FINISH_UNSAFE)
    case INVOKE_STORE_HEAD => m.(verb := HTTP_HEAD, typ := HTTP_REQUEST)
    case INVOKE_TYPE_RESPONSE => m.(typ := HTTP_RESPONSE)
    case INVOKE_TYPE_REQUEST => m.(typ := HTTP_REQUEST)
    case INVOKE_UPDATE_STATUS_CODE => m.(status := 0)
    case INVOKE_RESET_HEADER_STATE => m.(headerState := 0)
    case INVOKE_LOAD_HEADER_STATE => if m.headerState == 2 then m else OrHeaderFlag(m)
    case INVOKE_LOAD_HEADER_STATE_2 =>
      if m.headerState == 3 then m.(flags := m.flags.(transferEncoding := true))
      else if m.headerState == 4 then m.(flags := m.flags.(upgrade := true), headerState := 0)
      else m
    case INVOKE_LOAD_HEADER_STATE_3 => OrHeaderFlag(m)
    case INVOKE_LOAD_HEADER_STATE_4 => OrHeaderFlag(m)
    case INVOKE_RESET_CONNECTION => m.(headerState := 0)
    case INVOKE_OR_CONTENT_LENGTH => m.(flags := m.flags.(contentLength := true))
    case INVOKE_STORE_CHUNKED => m.(headerState := 8)
    case INVOKE_RESET_TRANSFER_ENCODING => m.(headerState := 0)
    case INVOKE_BEFORE_HEADERS_COMPLETE => m.(upgrade := UpgradeDecision(m))
    case INVOKE_SKIP_BODY => m.(flags := m.flags.(skipBody := true))
    case INVOKE_SKIP_FOR_UPGRADE => m.(upgrade := true, flags := m.flags.(skipBody := true))
    case INVOKE_UPDATE_CONTENT_LENGTH => m.(length := 0)
    case INVOKE_OR_TRAILING => m.(flags := m.flags.(trailing := true))
    case INVOKE_UPDATE_FINISH_2 => m.(finish := FINISH_SAFE_WITH_CB)
    case INVOKE_AFTER_MESSAGE_COMPLETE => m.(finish := FINISH_SAFE, flags := NO_FLAGS)
    case INVOKE_STORE_HEADER_STATE_1 => m.(headerState := 1)
    case INVOKE_STORE_HEADER_STATE_2 => m.(headerState := 2)
    case INVOKE_STORE_HEADER_STATE_3 => m.(headerState := 3)
    case INVOKE_STORE_HEADER_STATE_4 => m.(headerState := 4)
    case INVOKE_STORE_CONNECTION_5 => m.(headerState := 5)
    case INVOKE_STORE_CONNECTION_6 => m.(headerState := 6)
    case INVOKE_STORE_CONNECTION_7 => m.(headerState := 7)
    case _ => m
  }

  /** The digits that a number is made of. */
  predicate IsDigitOf(n: Node, c: byte) {
    if n == CHUNK_SIZE_DIGIT || n == CHUNK_SIZE then IsHex(c) else IsDigit(c)
  }

  /** Where a digit leads: overflow checks of the mul_add blocks. */
  function AfterDigit(n: Node, m: Fields, c: byte): Node
    requires IsDigitOf(n, c)
  {
    match n
    case RES_HTTP_MAJOR => RES_HTTP_DOT
    case RES_HTTP_MINOR => RES_HTTP_END
    case RES_STATUS_CODE =>
      var (x, ok) := MulAdd10(m.status, c - 48, 0xffff);
      if ok && x <= 999 then RES_STATUS_CODE else FAIL_INVALID_STATUS
    case HEADER_VALUE_CONTENT_LENGTH =>
      if MulAdd10(m.length, c - 48, MAX_UINT64).1 then HEADER_VALUE_CONTENT_LENGTH else SPAN_END_HEADER_VALUE_4
    case CHUNK_SIZE_DIGIT => if MulAdd16(m.length, HexValue(c)).1 then CHUNK_SIZE else FAIL_INVALID_CHUNK_SIZE
    case CHUNK_SIZE => if MulAdd16(m.length, HexValue(c)).1 then CHUNK_SIZE else FAIL_INVALID_CHUNK_SIZE
    case _ => DEAD
  }

  /** What a digit does to the number it belongs to. */
  function TakeDigit(n: Node, m: Fields, c: byte): Fields
    requires IsDigitOf(n, c)
  {
    match n
    case RES_HTTP_MAJOR => m.(major := c - 48)
    case RES_HTTP_MINOR => m.(minor := c - 48)
    case RES_STATUS_CODE => m.(status := MulAdd10(m.status, c - 48, 0xffff).0)
    case HEADER_VALUE_CONTENT_LENGTH => m.(length := MulAdd10(m.length, c - 48, MAX_UINT64).0)
    case CHUNK_SIZE_DIGIT => m.(length := MulAdd16(m.length, HexValue(c)).0)
    case CHUNK_SIZE => m.(length := MulAdd16(m.length, HexValue(c)).0)
    case _ => m
  }

  /** The code that an error block reports. */
  function ErrorOf(n: Node): int {
    match n
    case FAIL_LF_EXPECTED => HPE_LF_EXPECTED
    case FAIL_UNEXPECTED_CONTENT_LENGTH => HPE_UNEXPECTED_CONTENT_LENGTH
    case FAIL_INVALID_CONSTANT => HPE_INVALID_CONSTANT
    case FAIL_INVALID_VERSION => HPE_INVALID_VERSION
    case FAIL_INVALID_HEADER_TOKEN => HPE_INVALID_HEADER_TOKEN
    case FAIL_INVALID_CONTENT_LENGTH => HPE_INVALID_CONTENT_LENGTH
    case FAIL_INVALID_CHUNK_SIZE => HPE_INVALID_CHUNK_SIZE
    case FAIL_INVALID_STATUS => HPE_INVALID_STATUS
    case FAIL_INVALID_TRANSFER_ENCODING => HPE_INVALID_TRANSFER_ENCODING
    case FAIL_CB_MESSAGE_BEGIN => HPE_CB_MESSAGE_BEGIN
    case FAIL_CB_HEADERS_COMPLETE => HPE_CB_HEADERS_COMPLETE
    case FAIL_CB_MESSAGE_COMPLETE => HPE_CB_MESSAGE_COMPLETE
    case FAIL_CB_CHUNK_HEADER => HPE_CB_CHUNK_HEADER
    case FAIL_CB_CHUNK_COMPLETE => HPE_CB_CHUNK_COMPLETE
    case _ => 0
  }

  /** Where the answer of a callback leads; 21 leads where 0 does, once resumed. */
  function Route(n: Node, answer: int): Node {
    if answer == 0 || answer == HPE_PAUSED || MissOf(n) == n then NextOf(n)
    else if n == ON_HEADERS_COMPLETE && answer == 1 then INVOKE_SKIP_BODY
    else if n == ON_HEADERS_COMPLETE && answer == 2 then INVOKE_SKIP_FOR_UPGRADE
    else MissOf(n)
  }

  /** What the user is told by a callback node. */
  function EventOf(n: Node, m: Fields): Event {
    match n
    case ON_MESSAGE_BEGIN => MessageBegin
    case ON_STATUS_COMPLETE => StatusComplete
    case ON_HEADER_FIELD_COMPLETE => HeaderFieldComplete
    case ON_HEADER_VALUE_COMPLETE => HeaderValueComplete
    case ON_HEADERS_COMPLETE => HeadersComplete
    case ON_CHUNK_HEADER => ChunkHeader(m.length)
    case ON_CHUNK_COMPLETE => ChunkComplete
    case ON_CHUNK_COMPLETE_1 => ChunkComplete
    case _ => MessageComplete
  }
}
