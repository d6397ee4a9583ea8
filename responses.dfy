/**
 * HttpClientResponse: the response handed to a listener's
 * handleHttpResponse, and the views it offers over the native response.
 */
module Responses {
  import opened Wrappers
  import opened Streams

  /**
   * A received response: the status code, the native response's header
   * fields (one value per name) and the body bytes.
   */
  datatype HttpClientResponse = HttpClientResponse(statusCode: int, headerFields: map<string, string>, data: seq<byte>)
  {
    /** getResult: the body bytes, as the native response delivered them. */
    function GetResult(): (bytes: seq<byte>)
      ensures bytes == data
    {
      data
    }

    /** getHeader: the single value of the named field, None (null) when absent. */
    function GetHeader(name: string): (r: Option<string>)
      ensures r.Some? <==> name in headerFields
      ensures r.Some? ==> r.value == headerFields[name]
    {
      if name in headerFields then Some(headerFields[name]) else None
    }

    /** What getHeaders builds: each field's value wrapped in a one-element list. */
    ghost function HeaderLists(): (lists: map<string, seq<string>>)
    {
      map name | name in headerFields :: [headerFields[name]]
    }

    /**
     * getHeaders: a new map with exactly the header field names, each mapped
     * to a one-element list holding its value.
     */
    method GetHeaders() returns (ret: map<string, seq<string>>)
      ensures ret.Keys == headerFields.Keys
      ensures forall name :: name in ret ==> ret[name] == [headerFields[name]]
      ensures ret == HeaderLists()
    {
      ret := map[];
      var pending := headerFields.Keys;
      while pending != {}
        invariant pending <= headerFields.Keys
        invariant ret.Keys == headerFields.Keys - pending
        invariant forall name :: name in ret ==> ret[name] == [headerFields[name]]
        decreases pending
      {
        var name :| name in pending;
        var value := [headerFields[name]];
        ret := ret[name := value];
        pending := pending - {name};
      }
    }

    /** getResultAsStream: a fresh stream over the body bytes. */
    method GetResultAsStream() returns (s: InputStream)
      ensures fresh(s) && s.remaining == GetResult()
    {
      s := new InputStream(data);
    }
  }

  /**
   * getHeader and getHeaders agree: a name has a value exactly when it has a
   * list, and the list holds that value alone.
   */
  lemma HeaderViewsAgree(resp: HttpClientResponse, name: string)
    ensures resp.GetHeader(name).None? <==> name !in resp.HeaderLists()
    ensures resp.GetHeader(name).Some? ==> resp.HeaderLists()[name] == [resp.GetHeader(name).value]
  {
  }

  /** Taking the only element of each list gives back the header fields. */
  lemma HeaderListsRoundTrip(resp: HttpClientResponse)
    ensures (map name | name in resp.HeaderLists() :: resp.HeaderLists()[name][0]) == resp.headerFields
  {
  }
}
