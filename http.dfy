/** What the handlers see of net/http: the error body they encode and the
    response writer they write to. The JSON encoding is opaque, so the writer
    records the values encoded onto it, in order. */
module Http {

  const StatusOK := 200
  const StatusBadRequest := 400

  /** The code sent with every rejected submission. */
  const ErrInvalidJson := 1000

  datatype ErrResponse = ErrResponse(code: int, message: string)

  /** A value a handler encodes onto the response: the error body, or the
      echo of what it accepted. */
  datatype Reply<+V> = Rejected(err: ErrResponse) | Echo(value: V)

  /** A response writer as the server hands it to a handler. */
  class ResponseWriter<V> {
    var status: int
    var wroteHeader: bool
    var body: seq<Reply<V>>

    constructor ()
      ensures status == StatusOK && !wroteHeader && body == []
    {
      status := StatusOK;
      wroteHeader := false;
      body := [];
    }

    /** Sets the status code; once the header is written, later calls are
        ignored. */
    method WriteHeader(code: int)
      modifies this
      ensures status == (if old(wroteHeader) then old(status) else code)
      ensures wroteHeader && body == old(body)
    {
      if !wroteHeader {
        status := code;
        wroteHeader := true;
      }
    }

    /** `json.NewEncoder(writer).Encode(v)`: the first write commits the
        header, with status 200 unless WriteHeader chose another. */
    method Encode(v: Reply<V>)
      modifies this
      ensures status == (if old(wroteHeader) then old(status) else StatusOK)
      ensures wroteHeader && body == old(body) + [v]
    {
      if !wroteHeader {
        status := StatusOK;
        wroteHeader := true;
      }
      body := body + [v];
    }
  }
}
