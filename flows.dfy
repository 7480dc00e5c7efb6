/** `HTTPFromTCP` (index.js): one reassembled TCP session split into a
    request-side and a response-side message, each with its own parser. */
module Flows {
  import opened Messages

  /** The session fields the demultiplexer reads: `src_name`, `dst_name`, `send_isn`. */
  datatype TcpSession = TcpSession(srcName: string, dstName: string, sendIsn: int)

  class HttpFromTcp {
    const request: HttpMessage
    const response: HttpMessage

    /** The two sides have their own kinds, each with a parser of that kind,
        and they do not share a parser. */
    ghost predicate Valid()
      reads this, request, response
    {
      && request.kind == Request && request.Valid()
      && response.kind == Response && response.Valid()
      && request.parser != response.parser
    }

    /** Both messages start empty and carry the session's `src_name`,
        `dst_name` and `send_isn` (the response too: it is not swapped). */
    constructor (session: TcpSession, trackBodies: bool)
      ensures Valid()
      ensures fresh(request) && fresh(response) && fresh(request.parser) && fresh(response.parser)
      ensures request.src == response.src == session.srcName
      ensures request.dst == response.dst == session.dstName
      ensures request.isn == response.isn == session.sendIsn
      ensures request.trackBodies == response.trackBodies == trackBodies
      ensures request.Empty() && response.Empty()
      ensures request.startLine == InitialStartLine(Request)
      ensures response.startLine == InitialStartLine(Response)
      ensures request.parser.kind == Request && response.parser.kind == Response
      ensures request.parser.ops == [] && response.parser.ops == []
    {
      request := new HttpMessage(Request, session.srcName, session.dstName, session.sendIsn, trackBodies);
      response := new HttpMessage(Response, session.srcName, session.dstName, session.sendIsn, trackBodies);
    }

    /** `'data send'`: the bytes go to the request parser and nowhere else;
        successive calls append, so the parser sees them in arrival order. */
    method OnDataSend(data: seq<byte>)
      requires Valid()
      modifies request.parser
      ensures Valid()
      ensures request.parser.ops == old(request.parser.ops) + [Executed(data)]
      ensures response.parser.ops == old(response.parser.ops)
    {
      assert data[0..|data|] == data;
      request.parser.Execute(data[0..|data|]);
    }

    /** `'data recv'`: the bytes go to the response parser and nowhere else. */
    method OnDataRecv(data: seq<byte>)
      requires Valid()
      modifies response.parser
      ensures Valid()
      ensures response.parser.ops == old(response.parser.ops) + [Executed(data)]
      ensures request.parser.ops == old(request.parser.ops)
    {
      assert data[0..|data|] == data;
      response.parser.Execute(data[0..|data|]);
    }

    /** `'end'`: each parser executes one empty buffer, then each is freed. */
    method OnEnd()
      requires Valid()
      modifies request.parser, response.parser
      ensures Valid()
      ensures request.parser.ops == old(request.parser.ops) + [Executed([]), Freed]
      ensures response.parser.ops == old(response.parser.ops) + [Executed([]), Freed]
    {
      request.parser.Execute([]);
      response.parser.Execute([]);
      request.Free();
      response.Free();
    }
  }

}
