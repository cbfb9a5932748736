/** The HTTP status handling shared word for word by the `io.flipswitch` and
    `dev.flipswitch` providers when they check the API key at start-up.
 */
module HttpStatus {
  import Int32

  /** OkHttp's `Response.isSuccessful()`: a 2xx code. */
  predicate IsSuccessful(code: int) {
    200 <= code <= 299
  }

  datatype InitVerdict = Pass | Reject(message: string)

  /** How the start-up key check reads the status of its probe request:
      401 and 403 mean a bad key, any other failure except 404 means the
      server is unusable, and everything else lets start-up continue. */
  function ClassifyInit(code: int): (v: InitVerdict)
    ensures v.Pass? <==> IsSuccessful(code) || code == 404
    ensures code == 401 || code == 403 ==> v == Reject("Invalid API key")
    ensures v.Reject? && code != 401 && code != 403 ==>
      v.message == "Failed to connect to Flipswitch: " + Int32.Show(code)
  {
    if code == 401 || code == 403 then Reject("Invalid API key")
    else if !IsSuccessful(code) && code != 404 then
      Reject("Failed to connect to Flipswitch: " + Int32.Show(code))
    else Pass
  }

  /** The rejection messages tell the two failure kinds apart. */
  lemma RejectionsAreDistinct(code: int)
    requires !IsSuccessful(code) && code != 404 && code != 401 && code != 403
    ensures ClassifyInit(code) != ClassifyInit(401)
    ensures ClassifyInit(401) == ClassifyInit(403)
  {
    var m := ClassifyInit(code).message;
    assert m[0] == 'F';
  }
}
