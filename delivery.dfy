/** The transport-facing helpers: the translation of a service error into a gRPC status
    and into an HTTP status, and the HTTP handlers that use the latter. */
module Delivery {
  import opened Domain
  import Service
  import StoragePort

  // ---------------------------------------------------------------------------
  // gRPC

  /** The gRPC status codes the service produces. */
  datatype GrpcCode = Canceled | NotFound | InvalidArgument | Internal

  /** A status error: its code and its message. */
  datatype GrpcStatus = GrpcStatus(code: GrpcCode, message: string)

  /** `GRPCError`: the status the gRPC server returns for a service error. */
  function GRPCError(err: Error): (st: GrpcStatus)
    ensures st.message == "Error: " + err.Text()
    ensures st.code == Canceled <==> err == GenerateTimeout
    ensures st.code == NotFound <==> err == LinkNotFound
    ensures st.code == InvalidArgument <==> err == InvalidShort || err == InvalidLink
  {
    match err
    case GenerateTimeout => GrpcStatus(Canceled, "Error: " + err.Text())
    case LinkNotFound => GrpcStatus(NotFound, "Error: " + err.Text())
    case InvalidShort => GrpcStatus(InvalidArgument, "Error: " + err.Text())
    case InvalidLink => GrpcStatus(InvalidArgument, "Error: " + err.Text())
    case _ => GrpcStatus(Internal, "Error: " + err.Text())
  }

  // ---------------------------------------------------------------------------
  // HTTP

  const StatusOK: int := 200
  const StatusFound: int := 302
  const StatusBadRequest: int := 400
  const StatusNotFound: int := 404
  const StatusInternalServerError: int := 500

  /** The JSON body of a response: a code, a link, or gin's `{"error": ...}` object. */
  datatype Body = ShortBody(short: string) | LongBody(long: string) | ErrorBody(error: string)

  datatype Response = Response(status: int, body: Body)

  /** `HTTPError`: the response the aborted request carries for a service error. */
  function HTTPError(err: Error): (r: Response)
    ensures r.body == ErrorBody(err.Text())
    ensures r.status == StatusNotFound <==> err == LinkNotFound
    ensures r.status == StatusBadRequest <==> err in {InvalidDecode, InvalidShort, InvalidLink}
    ensures r.status == StatusInternalServerError <==> err == GenerateTimeout || err.Other?
  {
    match err
    case GenerateTimeout => Response(StatusInternalServerError, ErrorBody(err.Text()))
    case LinkNotFound => Response(StatusNotFound, ErrorBody(err.Text()))
    case InvalidDecode => Response(StatusBadRequest, ErrorBody(err.Text()))
    case InvalidShort => Response(StatusBadRequest, ErrorBody(err.Text()))
    case InvalidLink => Response(StatusBadRequest, ErrorBody(err.Text()))
    case _ => Response(StatusInternalServerError, ErrorBody(err.Text()))
  }

  /** The two transports agree: not-found is the same error on both; every gRPC invalid
      argument is an HTTP bad request, and the one bad request gRPC does not call invalid
      is the HTTP-only decode failure; everything else is a server-side failure on HTTP. */
  lemma TransportsAgree(err: Error)
    ensures HTTPError(err).status == StatusNotFound <==> GRPCError(err).code == NotFound
    ensures HTTPError(err).status == StatusBadRequest
        <==> GRPCError(err).code == InvalidArgument || err == InvalidDecode
    ensures HTTPError(err).status == StatusInternalServerError
        <==> GRPCError(err).code == Canceled || (GRPCError(err).code == Internal && err != InvalidDecode)
  {
  }

  /** A foreign error (a database failure, say) is never blamed on the client. */
  lemma ForeignErrorsAreServerFailures(msg: string)
    ensures HTTPError(Other(msg)).status == StatusInternalServerError
    ensures GRPCError(Other(msg)) == GrpcStatus(Internal, "Error: " + msg)
  {
  }

  class UrlHandler {
    const service: Service.UrlService

    constructor (service: Service.UrlService)
      ensures this.service == service
    {
      this.service := service;
    }

    /** `POST /`: the body, once decoded into a `URLLong`, is `decoded`; `None` means
        `BindJSON` failed. A decode failure is a 400 and the service is not called. */
    method CreateUrl(decoded: Option<URLLong>, gen: seq<Service.Candidate>) returns (r: Response)
      modifies service.db
      ensures decoded == None ==> r == HTTPError(InvalidDecode) && r.status == StatusBadRequest
      ensures decoded == None ==> service.db.log == old(service.db.log) && service.db.entries == old(service.db.entries)
      ensures decoded.Some? ==>
        var (short, err) := Service.CreateReply(decoded.value.longURL, gen, old(service.db.entries),
                                                service.db.failing, service.db.addFault);
        r == if err.Some? then HTTPError(err.value) else Response(StatusOK, ShortBody(short))
      ensures decoded.Some? ==>
        service.db.log == old(service.db.log)
          + Service.CreateCalls(decoded.value.longURL, gen, old(service.db.entries), service.db.failing) &&
        service.db.entries == Service.CreateEntries(decoded.value.longURL, gen, old(service.db.entries),
                                                    service.db.failing, service.db.addFault)
    {
      if decoded == None {
        r := HTTPError(InvalidDecode);
        return;
      }
      var short, err := service.CreateUrl(decoded.value.longURL, gen);
      if err.Some? {
        r := HTTPError(err.value);
        return;
      }
      r := Response(StatusOK, ShortBody(short));
    }

    /** `GET /:link`: a redirect-status reply with the long link, or the error's status. */
    method GetUrl(link: string) returns (r: Response)
      modifies service.db
      ensures var (long, err) := Service.GetReply(old(service.db.entries), service.db.failing, link);
        r == if err.Some? then HTTPError(err.value) else Response(StatusFound, LongBody(long))
      ensures service.db.entries == old(service.db.entries)
      ensures service.db.log
           == old(service.db.log) + (if Utf8Len(link) > Service.MaxShortBytes then [] else [StoragePort.Lookup(link)])
    {
      var long, err := service.GetUrl(link);
      if err.Some? {
        r := HTTPError(err.value);
        return;
      }
      r := Response(StatusFound, LongBody(long));
    }
  }
}
