/** The messages between the SSH server and the CA, and their text encoding. */
module Protocol {
  import opened Base

  /** Keys are compared by `keyData` only; the comment travels along. */
  datatype PublicKey = PublicKey(keyData: seq<byte>, comment: string)

  datatype CertKind = UserCert | HostCert

  datatype Certificate = Certificate(
    kind: CertKind,
    keyData: seq<byte>,
    keyId: string,
    principals: seq<string>,
    extensions: seq<string>,
    comment: string,
    validAfter: u64,
    validBefore: u64)

  datatype CaRequest =
    | SignCertificate(user: string, publicKey: PublicKey)
    | CheckPublicKey(publicKey: PublicKey)
    | SignHostCertificate(hostName: string, publicKey: PublicKey)

  datatype CaResponse =
    | SignedCertificate(cert: Certificate)
    | Error(message: string)
    | KeyFound(host: Option<string>)

  datatype AuthenticatedRequest = AuthenticatedRequest(token: string, counter: u64, request: CaRequest)

  /** A reply fits a request when the caller has a branch for it. */
  predicate Fits(request: CaRequest, response: CaResponse) {
    || response.Error?
    || (request.CheckPublicKey? <==> response.KeyFound?)
  }

  /** JSON and UTF-8, kept abstract. Encoding an envelope may fail, encoding a
      reply does not. */
  datatype Codec = Codec(
    utf8: seq<byte> -> Option<string>,
    encodeRequest: AuthenticatedRequest -> Option<seq<byte>>,
    parseRequest: string -> Option<AuthenticatedRequest>,
    encodeResponse: CaResponse -> seq<byte>,
    parseResponse: string -> Option<CaResponse>)
  {
    function OpenRequest(payload: seq<byte>): Option<AuthenticatedRequest> {
      match utf8(payload)
      case None => None
      case Some(text) => parseRequest(text)
    }

    function OpenResponse(payload: seq<byte>): Option<CaResponse> {
      match utf8(payload)
      case None => None
      case Some(text) => parseResponse(text)
    }

    /** What is assumed of JSON: decoding undoes encoding, and an encoded object
        is no longer an object once its tail is cut off. */
    ghost predicate Faithful() {
      && (forall e :: encodeRequest(e).Some? ==> OpenRequest(encodeRequest(e).value) == Some(e))
      && (forall e, n: nat :: encodeRequest(e).Some? && n < |encodeRequest(e).value| ==>
            OpenRequest(encodeRequest(e).value[..n]) == None)
      && (forall r :: OpenResponse(encodeResponse(r)) == Some(r))
      && (forall r, n: nat :: n < |encodeResponse(r)| ==> OpenResponse(encodeResponse(r)[..n]) == None)
    }
  }
}
