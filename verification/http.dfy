/**
 * The part of Go's `net/http` the handlers rely on: a response writer whose
 * first `WriteHeader` fixes the status (later calls are ignored), whose
 * `Write` sends status 200 first if no status was written yet, and the helper
 * `http.Error`, which writes a status and then the message and a newline.
 * Headers are not modelled.
 */
module Http {
  const StatusOK := 200
  const StatusCreated := 201
  const StatusBadRequest := 400
  const StatusNotFound := 404
  const StatusConflict := 409
  const StatusInternalServerError := 500

  /** A piece of a response body: plain text, or a document encoded as JSON. */
  datatype Chunk<J> = Text(text: string) | Json(doc: J)

  class ResponseWriter<J> {
    var wroteHeader: bool
    var code: int
    var body: seq<Chunk<J>>

    /** A response nothing has been written to yet, as a handler receives it. */
    predicate Unwritten()
      reads this
    {
      !wroteHeader && body == []
    }

    constructor()
      ensures Unwritten()
    {
      wroteHeader, code, body := false, 0, [];
    }

    method WriteHeader(status: int)
      modifies this
      ensures wroteHeader && body == old(body)
      ensures code == if old(wroteHeader) then old(code) else status
    {
      if !wroteHeader {
        wroteHeader, code := true, status;
      }
    }

    method Write(c: Chunk<J>)
      modifies this
      ensures wroteHeader && body == old(body) + [c]
      ensures code == if old(wroteHeader) then old(code) else StatusOK
    {
      WriteHeader(StatusOK);
      body := body + [c];
    }
  }

  /** `http.Error(w, msg, status)`. */
  method Error<J>(w: ResponseWriter<J>, msg: string, status: int)
    modifies w
    ensures w.wroteHeader && w.body == old(w.body) + [Text(msg + "\n")]
    ensures w.code == if old(w.wroteHeader) then old(w.code) else status
  {
    w.WriteHeader(status);
    w.Write(Text(msg + "\n"));
  }

  /** The handlers' `httpResponse(w, data, status)`: a status, then the encoded document. */
  method HttpResponse<J>(w: ResponseWriter<J>, data: J, status: int)
    modifies w
    ensures w.wroteHeader && w.body == old(w.body) + [Json(data)]
    ensures w.code == if old(w.wroteHeader) then old(w.code) else status
  {
    w.WriteHeader(status);
    w.Write(Json(data));
  }
}
