/**
 * The per-identifier lookup against the Ensembl REST service: one GET request
 * for the protein sequence of a transcript, whose body is the answer unless the
 * response reports a failure.
 *
 * The network is an abstract function `get` from requests to responses; the
 * response's `ok` flag is the HTTP library's own success test.
 */
module SequenceLookup {
  import opened Wrappers

  datatype HttpRequest = Get(url: string, headers: map<string, string>)
  datatype HttpResponse = HttpResponse(ok: bool, text: string)

  const Server: string := "https://rest.ensembl.org"

  /** GET <Server>/sequence/id/<id>?type=protein with a plain-text Content-Type header. */
  function ProteinSequenceRequest(id: string): HttpRequest
  {
    Get(Server + "/sequence/id/" + id + "?type=protein", map["Content-Type" := "text/plain"])
  }

  /** The request value built for a key determines the key (before any rewriting by an HTTP library). */
  lemma RequestIdentifiesTranscript(a: string, b: string)
    requires ProteinSequenceRequest(a) == ProteinSequenceRequest(b)
    ensures a == b
  {
    var prefix, suffix := Server + "/sequence/id/", "?type=protein";
    var ua, ub := ProteinSequenceRequest(a).url, ProteinSequenceRequest(b).url;
    assert ua == prefix + a + suffix;
    assert ub == prefix + b + suffix;
    assert |a| == |b|;
    assert a == ua[|prefix|..|prefix| + |a|];
    assert b == ub[|prefix|..|prefix| + |b|];
  }

  /**
   * The protein sequence of a transcript: absent when the response is not OK,
   * otherwise the response body exactly as received.
   */
  function ConvertTranscriptId(get: HttpRequest -> HttpResponse, id: string): Option<string>
  {
    var response := get(ProteinSequenceRequest(id));
    if !response.ok then None else Some(response.text)
  }
}
