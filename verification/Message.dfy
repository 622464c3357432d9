/** message/message.h: the state of one request and of one response. Each is a
    datatype (the value the lemmas speak about) and a class whose methods update
    it in place.
 */
module Message {
  import opened Bytes

  datatype MsgStatus = HandleInit | HandleHead | HandleBody | HandleComplete | HandleError
  datatype FileMsgStatus = FileBeginFlag | FileHead | FileContent | FileComplete
  datatype BodyType = FileType | HtmlType | EmptyType

  const CONTENT_TYPE := "Content-Type"
  const CONTENT_LENGTH := "Content-Length"
  const BOUNDARY := "boundary"
  const MULTIPART := "multipart/form-data"

  type Headers = map<string, string>

  // ---------------------------------------------------------------- requests

  datatype RequestValue = RequestValue(
    status: MsgStatus,
    fileStatus: FileMsgStatus,
    requestMethod: string,
    resource: string,
    version: string,
    headers: Headers,
    contentLength: int,
    fileName: string,
    recvMsg: string)

  const FRESH_REQUEST := RequestValue(HandleInit, FileBeginFlag, "", "", "", map[], 0, "", "")

  /** The three words of a request line; a missing word reads as empty. */
  function RequestLine(line: string): (string, string, string) {
    var (m, r1) := ReadWord(line);
    var (u, r2) := ReadWord(r1);
    var (v, _) := ReadWord(r2);
    (m, u, v)
  }

  function WithRequestLine(v: RequestValue, line: string): RequestValue {
    var words := RequestLine(line);
    v.(requestMethod := words.0, resource := words.1, version := words.2)
  }

  /** What one header line asks for: assignments to the header map, a body
      length, or something on which the parser throws or reads out of bounds. */
  datatype HeaderEffect = Assign(fields: seq<(string, string)>) | Length(n: int) | Malformed

  /** Text up to the first line feed, without one trailing carriage return. */
  function FirstLine(s: string): string {
    var line := match IndexOf(s, '\n') case Some(i) => s[..i] case None => s;
    if line != "" && line[|line| - 1] == '\r' then line[..|line| - 1] else line
  }

  /** Key and value of a header line: the first word without its last
      character, and the text after the one character that follows it. */
  function HeaderFields(line: string): Option<(string, string)> {
    var (word, rest) := ReadWord(line);
    if word == "" then None
    else Some((word[..|word| - 1], FirstLine(if rest == "" then "" else rest[1..])))
  }

  function ContentTypeEffect(value: string): HeaderEffect {
    match IndexOf(value, ';')
    case None => Assign([(CONTENT_TYPE, value)])
    case Some(semi) =>
      if semi + 2 > |value| then Malformed
      else match IndexFrom(value, '=', semi)
        case None => Assign([(CONTENT_TYPE, value[..semi]), (value[semi + 2..], value)])
        case Some(eq) =>
          // a '=' right behind the ';' makes the length of the name wrap around
          var name := if eq < semi + 2 then value[semi + 2..] else value[semi + 2..eq];
          Assign([(CONTENT_TYPE, value[..semi]), (name, value[eq + 1..])])
  }

  function Effect(key: string, value: string): HeaderEffect {
    if key == CONTENT_LENGTH then
      match Stoll(value) case Some(n) => Length(n) case None => Malformed
    else if key == CONTENT_TYPE then ContentTypeEffect(value)
    else Assign([(key, value)])
  }

  function AssignAll(headers: Headers, fields: seq<(string, string)>): Headers
    decreases |fields|
  {
    if fields == [] then headers
    else AssignAll(headers[fields[0].0 := fields[0].1], fields[1..])
  }

  lemma AssignOne(headers: Headers, a: (string, string))
    ensures AssignAll(headers, [a]) == headers[a.0 := a.1]
  {
    assert [a][1..] == [];
  }

  lemma AssignPair(headers: Headers, a: (string, string), b: (string, string))
    ensures AssignAll(headers, [a, b]) == headers[a.0 := a.1][b.0 := b.1]
  {
    assert [a, b][1..] == [b];
    AssignOne(headers[a.0 := a.1], b);
  }

  /** What a whole header line asks for; an empty key has no last character to take off. */
  function LineEffect(line: string): HeaderEffect {
    match HeaderFields(line)
    case None => Malformed
    case Some((key, value)) => Effect(key, value)
  }

  /** A request after one header line; None where the original has no defined continuation. */
  function ApplyEffect(v: RequestValue, e: HeaderEffect): Option<RequestValue> {
    match e
    case Malformed => None
    case Length(n) => Some(v.(contentLength := n))
    case Assign(fields) => Some(v.(headers := AssignAll(v.headers, fields)))
  }

  function AddHeader(v: RequestValue, line: string): (r: Option<RequestValue>)
    ensures r.Some? ==> r.value == v.(headers := r.value.headers, contentLength := r.value.contentLength)
  {
    ApplyEffect(v, LineEffect(line))
  }

  class Request {
    var status: MsgStatus
    var fileStatus: FileMsgStatus
    var requestMethod: string
    var resource: string
    var version: string
    var headers: Headers
    var contentLength: int
    var fileName: string
    var recvMsg: string

    function Value(): RequestValue
      reads this
    {
      RequestValue(status, fileStatus, requestMethod, resource, version, headers, contentLength, fileName, recvMsg)
    }

    constructor ()
      ensures Value() == FRESH_REQUEST
    {
      status, fileStatus := HandleInit, FileBeginFlag;
      requestMethod, resource, version := "", "", "";
      headers, contentLength, fileName, recvMsg := map[], 0, "", "";
    }

    method SetRequestLine(line: string)
      modifies this
      ensures Value() == WithRequestLine(old(Value()), line)
    {
      var words := RequestLine(line);
      requestMethod, resource, version := words.0, words.1, words.2;
    }

    /** Stores one header line. The result is false exactly where the original
        throws (`stoll`, `substr`) or pops from an empty key. */
    method AddHeaderOpt(line: string) returns (ok: bool)
      modifies this
      ensures ok <==> AddHeader(old(Value()), line).Some?
      ensures ok ==> Value() == AddHeader(old(Value()), line).value
    {
      var word := ReadWord(line);
      if word.0 == "" {
        return false;
      }
      var key := word.0[..|word.0| - 1];
      var value := FirstLine(if word.1 == "" then "" else word.1[1..]);
      assert HeaderFields(line) == Some((key, value));
      hide ReadWord, FirstLine, HeaderFields, Stoll, ContentTypeEffect, AssignAll;
      ghost var effect := Effect(key, value);
      if key == CONTENT_LENGTH {
        var n := Stoll(value);
        if n.None? {
          return false;
        }
        contentLength := n.value;
      } else if key == CONTENT_TYPE {
        var stored := AddContentType(value);
        if !stored {
          return false;
        }
      } else {
        AssignOne(headers, (key, value));
        headers := headers[key := value];
      }
      assert effect.Assign? ==> headers == AssignAll(old(headers), effect.fields);
      assert effect.Length? ==> headers == old(headers) && contentLength == effect.n;
      return true;
    }

    /** The Content-Type branch: the type up to the first ';', and the parameter
        behind it under its own name. */
    method AddContentType(value: string) returns (ok: bool)
      modifies this`headers
      ensures ok <==> ContentTypeEffect(value).Assign?
      ensures ok ==> headers == AssignAll(old(headers), ContentTypeEffect(value).fields)
    {
      hide IndexOf, IndexFrom, AssignAll;
      var semi := IndexOf(value, ';');
      if semi.None? {
        AssignOne(headers, (CONTENT_TYPE, value));
        headers := headers[CONTENT_TYPE := value];
        return true;
      }
      headers := headers[CONTENT_TYPE := value[..semi.value]];
      if semi.value + 2 > |value| {
        return false;
      }
      var eq := IndexFrom(value, '=', semi.value);
      var key, text := value[semi.value + 2..], value;
      if eq.Some? {
        if eq.value >= semi.value + 2 {
          key := value[semi.value + 2..eq.value];
        }
        text := value[eq.value + 1..];
      }
      AssignPair(old(headers), (CONTENT_TYPE, value[..semi.value]), (key, text));
      headers := headers[key := text];
      return true;
    }
  }

  /** `removeSpaces`: the loop over the characters of a file name. */
  method RemoveSpaces(s: string) returns (r: string)
    ensures r == WithoutSpaces(s)
  {
    r := "";
    for i := 0 to |s|
      invariant r == WithoutSpaces(s[..i])
    {
      WithoutSpacesAppend(s[..i], s[i]);
      assert s[..i + 1] == s[..i] + [s[i]];
      if !IsSpace(s[i]) {
        r := r + [s[i]];
      }
    }
    assert s[..|s|] == s;
  }

  // ---------------------------------------------------------------- responses

  /** `fileMsg` stands for the bytes behind the descriptor of a file being
      downloaded; the other fields are those of class Response. */
  datatype ResponseValue = ResponseValue(
    status: MsgStatus,
    target: string,
    head: string,
    msgBody: string,
    msgBodyLen: nat,
    headLen: nat,
    bodyType: BodyType,
    fileMsg: string,
    cursor: nat)
  {
    /** The bytes the body phase sends. */
    function Body(): string {
      match bodyType
      case HtmlType => msgBody
      case FileType => fileMsg
      case EmptyType => ""
    }
  }

  /** A default-constructed Response. The original leaves the lengths, the body
      type and the cursor uninitialised; no branch reads them before routing
      sets them. */
  const FRESH_RESPONSE := ResponseValue(HandleInit, "", "", "", 0, 0, EmptyType, "", 0)

  class Response {
    var status: MsgStatus
    var target: string
    var head: string
    var msgBody: string
    var msgBodyLen: nat
    var headLen: nat
    var bodyType: BodyType
    var fileMsg: string
    var cursor: nat

    function Value(): ResponseValue
      reads this
    {
      ResponseValue(status, target, head, msgBody, msgBodyLen, headLen, bodyType, fileMsg, cursor)
    }

    constructor ()
      ensures Value() == FRESH_RESPONSE
    {
      status, target, head, msgBody := HandleInit, "", "", "";
      msgBodyLen, headLen, bodyType, fileMsg, cursor := 0, 0, EmptyType, "", 0;
    }
  }
}
