/**
 * The serverless post endpoint (api/post.ts) without its calls into the
 * Twitter SDK: the chain of early-return checks on method, body and
 * credentials, the per-image preparation (MIME detection, upload type,
 * data-URL prefix stripping) and the shaping of the JSON responses.
 */
module PostHandler {
  import opened Wrappers

  /** The `text` field of the request body, only as far as its JavaScript truthiness goes. */
  datatype TextField =
    | NoText                      // absent, `undefined` or `null`
    | Text(s: string)
    | NonString(truthy: bool)     // a number, boolean or object, truthy or not

  /** The `images` field: `Array.isArray` fails, or an array of data-URL strings. */
  datatype ImagesField = NotArray | ImageList(items: seq<string>)

  datatype Request = Request(httpMethod: string, text: TextField, images: ImagesField)

  /** The process environment: variable name to value. */
  type Environment = map<string, string>

  /** A value thrown by the upload or tweet calls: an `Error` with its message, or anything else. */
  datatype Thrown = ErrorObject(message: string) | OtherValue

  /** What the media uploads and the tweet call produced together: the new tweet's id, or what they threw. */
  datatype TwitterOutcome = Tweeted(tweetId: string) | Rejected(thrown: Thrown)

  /** The JSON bodies the handler sends. */
  datatype Body =
    | ErrorBody(error: string)
    | ConfigErrorBody(error: string, details: string)
    | SuccessBody(success: bool, postUrl: string, postId: string)

  datatype Response = Response(status: nat, body: Body)

  /** One `uploadMedia` call: the base64 payload (before decoding) with its MIME and upload type. */
  datatype Upload = Upload(payload: string, mimeType: string, uploadType: string)

  /** The handler's response together with the uploads it asked for. */
  datatype Handled = Handled(response: Response, uploads: seq<Upload>)

  // ---------------------------------------------------------------- data-URL prefix

  const ImagePrefix: string := "data:image/"
  const Base64Marker: string := ";base64,"

  /** `\w` in a JavaScript regular expression. */
  predicate IsWordChar(c: char) {
    ('A' <= c <= 'Z') || ('a' <= c <= 'z') || ('0' <= c <= '9') || c == '_'
  }

  predicate IsWord(w: string) {
    |w| > 0 && forall k :: 0 <= k < |w| ==> IsWordChar(w[k])
  }

  function DataUrlPrefix(word: string): string {
    ImagePrefix + word + Base64Marker
  }

  /** `s` begins with the text `/^data:image\/\w+;base64,/` matches, with `word` as the `\w+` part. */
  predicate HasDataUrlPrefix(s: string, word: string) {
    IsWord(word) && DataUrlPrefix(word) <= s
  }

  /** The length of the longest run of word characters in `s` that starts at `from`. */
  function WordRun(s: string, from: nat): (n: nat)
    requires from <= |s|
    ensures from + n <= |s|
    ensures forall k :: from <= k < from + n ==> IsWordChar(s[k])
    ensures from + n < |s| ==> !IsWordChar(s[from + n])
    decreases |s| - from
  {
    if from < |s| && IsWordChar(s[from]) then 1 + WordRun(s, from + 1) else 0
  }

  /**
   * The `\w+` part of the data-URL prefix of `s`, if `s` has one.  Since `;`
   * is not a word character, the greedy `\w+` can only match the longest run.
   */
  function DataUrlWord(s: string): (w: Option<string>)
    ensures w.Some? ==> HasDataUrlPrefix(s, w.value)
  {
    if ImagePrefix <= s then
      var n := WordRun(s, |ImagePrefix|);
      var rest := s[|ImagePrefix| + n..];
      if n > 0 && Base64Marker <= rest then
        var w := s[|ImagePrefix|..|ImagePrefix| + n];
        assert s[..|DataUrlPrefix(w)|] == ImagePrefix + w + rest[..|Base64Marker|];
        Some(w)
      else None
    else None
  }

  /** The prefix, when present, is always found, and with the right word. */
  lemma DataUrlWordComplete(s: string, word: string)
    requires HasDataUrlPrefix(s, word)
    ensures DataUrlWord(s) == Some(word)
  {
    var p := |ImagePrefix|;
    assert ImagePrefix <= s by {
      assert s[..p] == DataUrlPrefix(word)[..p];
    }
    var n := WordRun(s, p);
    assert s[p..p + |word|] == word by {
      assert DataUrlPrefix(word)[p..p + |word|] == word;
    }
    assert s[p + |word|] == ';' by {
      assert DataUrlPrefix(word)[p + |word|] == ';';
    }
    assert n == |word|;
    assert Base64Marker <= s[p + n..] by {
      assert s[p + n..][..|Base64Marker|] == DataUrlPrefix(word)[p + n..];
    }
  }

  /** `match ? match[1] : "image/jpeg"` */
  function MimeType(s: string): (mime: string)
    ensures DataUrlWord(s).None? ==> mime == "image/jpeg"
    ensures DataUrlWord(s).Some? ==> mime == "image/" + DataUrlWord(s).value
  {
    match DataUrlWord(s)
    case Some(w) => "image/" + w
    case None => "image/jpeg"
  }

  /** `base64Image.replace(/^data:image\/\w+;base64,/, "")` */
  function StripPrefix(s: string): (r: string)
    ensures r != s <==> DataUrlWord(s).Some?
    ensures DataUrlWord(s).Some? ==> s == DataUrlPrefix(DataUrlWord(s).value) + r
  {
    match DataUrlWord(s)
    case Some(w) =>
      var r := s[|DataUrlPrefix(w)|..];
      assert s == s[..|DataUrlPrefix(w)|] + r;
      r
    case None => s
  }

  /** With a data-URL prefix, detection reports its type and stripping removes exactly it. */
  lemma PrefixedImage(s: string, word: string)
    requires HasDataUrlPrefix(s, word)
    ensures MimeType(s) == "image/" + word
    ensures s == DataUrlPrefix(word) + StripPrefix(s)
  {
    DataUrlWordComplete(s, word);
  }

  /** Without a data-URL prefix, the type defaults to JPEG and the string is left as it is. */
  lemma UnprefixedImage(s: string)
    requires forall word :: !HasDataUrlPrefix(s, word)
    ensures MimeType(s) == "image/jpeg"
    ensures StripPrefix(s) == s
  {
  }

  /** The upload type chosen by three successive `if`s over a default of `jpg`. */
  function UploadType(mimeType: string): (t: string)
    ensures t in {"jpg", "png", "gif", "webp"}
    ensures t != "jpg" <==> mimeType in {"image/png", "image/gif", "image/webp"}
    ensures t != "jpg" ==> mimeType == "image/" + t
  {
    var t0 := "jpg";
    var t1 := if mimeType == "image/png" then "png" else t0;
    var t2 := if mimeType == "image/gif" then "gif" else t1;
    var t3 := if mimeType == "image/webp" then "webp" else t2;
    t3
  }

  /** What the handler asks `uploadMedia` for, for one image string. */
  function PrepareUpload(image: string): (u: Upload)
    ensures u.uploadType == UploadType(u.mimeType)
    ensures DataUrlWord(image).Some? ==> u.mimeType == "image/" + DataUrlWord(image).value
    ensures DataUrlWord(image).Some? ==> image == DataUrlPrefix(DataUrlWord(image).value) + u.payload
    ensures DataUrlWord(image).None? ==> u.payload == image && u.mimeType == "image/jpeg" && u.uploadType == "jpg"
  {
    var mimeType := MimeType(image);
    Upload(StripPrefix(image), mimeType, UploadType(mimeType))
  }

  // ---------------------------------------------------------------- validation

  /** JavaScript truthiness of the `text` field. */
  predicate Truthy(t: TextField) {
    match t
    case NoText => false
    case Text(s) => s != ""
    case NonString(b) => b
  }

  /** The body check: a truthy `text` and a non-empty array of images. */
  predicate WellFormedBody(req: Request) {
    Truthy(req.text) && req.images.ImageList? && |req.images.items| > 0
  }

  const CredentialNames: seq<string> := ["X_API_KEY", "X_API_KEY_SECRET", "X_ACCESS_TOKEN", "X_ACCESS_TOKEN_SECRET"]

  /** `!!process.env[name]`: set and non-empty. */
  predicate Present(env: Environment, name: string) {
    name in env && env[name] != ""
  }

  predicate IsSubsequence(a: seq<string>, b: seq<string>)
    decreases |b|
  {
    if a == [] then true
    else if b == [] then false
    else if a[0] == b[0] then IsSubsequence(a[1..], b[1..])
    else IsSubsequence(a, b[1..])
  }

  /** The names of `names` that are not set, kept in the order of `names`. */
  function MissingAmong(env: Environment, names: seq<string>): (m: seq<string>)
    ensures forall x :: x in m <==> x in names && !Present(env, x)
    ensures IsSubsequence(m, names)
  {
    if names == [] then []
    else if Present(env, names[0]) then MissingAmong(env, names[1..])
    else
      var rest := MissingAmong(env, names[1..]);
      assert ([names[0]] + rest)[1..] == rest;
      [names[0]] + rest
  }

  /** The `missing` list of the 500 response: the unset credentials, in their fixed order. */
  function MissingCredentials(env: Environment): (m: seq<string>)
    ensures forall x :: x in m <==> x in CredentialNames && !Present(env, x)
    ensures IsSubsequence(m, CredentialNames)
    ensures m == [] <==> (Present(env, "X_API_KEY") && Present(env, "X_API_KEY_SECRET")
                          && Present(env, "X_ACCESS_TOKEN") && Present(env, "X_ACCESS_TOKEN_SECRET"))
  {
    var m := MissingAmong(env, CredentialNames);
    assert m != [] ==> m[0] in m;
    m
  }

  /** `Array.prototype.join`: the parts with `sep` between neighbours. */
  function Join(parts: seq<string>, sep: string): (r: string)
    ensures |parts| == 1 ==> r == parts[0]
    ensures parts == [] ==> r == ""
  {
    if parts == [] then ""
    else if |parts| == 1 then parts[0]
    else parts[0] + sep + Join(parts[1..], sep)
  }

  /** Joining one more part puts exactly one separator before it. */
  lemma {:induction false} JoinAppend(parts: seq<string>, x: string, sep: string)
    requires |parts| > 0
    ensures Join(parts + [x], sep) == Join(parts, sep) + sep + x
    decreases |parts|
  {
    if |parts| > 1 {
      assert (parts + [x])[1..] == parts[1..] + [x];
      JoinAppend(parts[1..], x, sep);
    }
  }

  /** The response to a failure or success of the uploads and the tweet. */
  function Respond(outcome: TwitterOutcome): (r: Response)
    ensures r.status == 200 <==> outcome.Tweeted?
    ensures r.status != 200 ==> r.status == 500 && r.body.ErrorBody?
    // a posted tweet links to its own id
    ensures outcome.Tweeted? ==>
              r.body == SuccessBody(true, "https://x.com/user/status/" + outcome.tweetId, outcome.tweetId)
    // an `Error` passes its message on; anything else is reported generically
    ensures outcome.Rejected? && outcome.thrown.ErrorObject? ==> r.body == ErrorBody(outcome.thrown.message)
    ensures outcome.Rejected? && outcome.thrown.OtherValue? ==> r.body == ErrorBody("Internal Server Error")
  {
    match outcome
    case Tweeted(id) => Response(200, SuccessBody(true, "https://x.com/user/status/" + id, id))
    case Rejected(ErrorObject(message)) => Response(500, ErrorBody(message))
    case Rejected(OtherValue) => Response(500, ErrorBody("Internal Server Error"))
  }

  /** The handler, with the Twitter calls' combined outcome given as `twitter`. */
  function Handle(req: Request, env: Environment, twitter: TwitterOutcome): (h: Handled)
    // the method is checked first, whatever the body and the environment
    ensures req.httpMethod != "POST" ==> h == Handled(Response(405, ErrorBody("Method not allowed")), [])
    // then the body, whatever the environment
    ensures req.httpMethod == "POST" && !WellFormedBody(req) ==>
              h == Handled(Response(400, ErrorBody("Missing text or images")), [])
    // then the credentials
    ensures req.httpMethod == "POST" && WellFormedBody(req) && MissingCredentials(env) != [] ==>
              h.uploads == [] && h.response.status == 500 &&
              h.response.body == ConfigErrorBody("Server configuration error",
                                                 "Missing environment variables: " + Join(MissingCredentials(env), ", "))
    // only a request that passes all three reaches the uploads, one per image, in order
    ensures h.uploads != [] <==> req.httpMethod == "POST" && WellFormedBody(req) && MissingCredentials(env) == []
    ensures h.uploads != [] ==>
              |h.uploads| == |req.images.items| &&
              forall k :: 0 <= k < |h.uploads| ==> h.uploads[k] == PrepareUpload(req.images.items[k])
    ensures h.uploads != [] ==> h.response == Respond(twitter)
  {
    if req.httpMethod != "POST" then
      Handled(Response(405, ErrorBody("Method not allowed")), [])
    else if !Truthy(req.text) || !req.images.ImageList? || |req.images.items| == 0 then
      Handled(Response(400, ErrorBody("Missing text or images")), [])
    else if !Present(env, "X_API_KEY") || !Present(env, "X_API_KEY_SECRET")
            || !Present(env, "X_ACCESS_TOKEN") || !Present(env, "X_ACCESS_TOKEN_SECRET") then
      var missing := MissingCredentials(env);
      Handled(Response(500, ConfigErrorBody("Server configuration error",
                                            "Missing environment variables: " + Join(missing, ", "))), [])
    else
      var items := req.images.items;
      Handled(Respond(twitter), seq(|items|, k requires 0 <= k < |items| => PrepareUpload(items[k])))
  }

  /** A successful tweet links to its own id. */
  lemma SuccessShape(req: Request, env: Environment, id: string)
    requires req.httpMethod == "POST" && WellFormedBody(req) && MissingCredentials(env) == []
    ensures Handle(req, env, Tweeted(id)).response ==
            Response(200, SuccessBody(true, "https://x.com/user/status/" + id, id))
  {
  }

  /** With no credentials set, every one of them is missing, in the fixed order. */
  lemma NoCredentialsMissing()
    ensures MissingCredentials(map[]) == CredentialNames
  {
    var env: Environment := map[];
    assert MissingAmong(env, CredentialNames[3..]) == ["X_ACCESS_TOKEN_SECRET"];
    assert MissingAmong(env, CredentialNames[2..]) == ["X_ACCESS_TOKEN", "X_ACCESS_TOKEN_SECRET"];
    assert MissingAmong(env, CredentialNames[1..]) == ["X_API_KEY_SECRET", "X_ACCESS_TOKEN", "X_ACCESS_TOKEN_SECRET"];
  }

  /** The four credential names joined by commas. */
  lemma CredentialNamesJoined()
    ensures Join(CredentialNames, ", ") ==
            "X_API_KEY" + ", " + "X_API_KEY_SECRET" + ", " + "X_ACCESS_TOKEN" + ", " + "X_ACCESS_TOKEN_SECRET"
  {
    JoinAppend(["X_API_KEY"], "X_API_KEY_SECRET", ", ");
    JoinAppend(["X_API_KEY", "X_API_KEY_SECRET"], "X_ACCESS_TOKEN", ", ");
    JoinAppend(["X_API_KEY", "X_API_KEY_SECRET", "X_ACCESS_TOKEN"], "X_ACCESS_TOKEN_SECRET", ", ");
    assert ["X_API_KEY", "X_API_KEY_SECRET", "X_ACCESS_TOKEN"] + ["X_ACCESS_TOKEN_SECRET"] == CredentialNames;
  }

  /** With no credentials set, the 500 response names all four, in order, separated by commas. */
  lemma NoCredentialsDetails(req: Request, twitter: TwitterOutcome)
    requires req.httpMethod == "POST" && WellFormedBody(req)
    ensures Handle(req, map[], twitter) ==
            Handled(Response(500, ConfigErrorBody("Server configuration error",
                    "Missing environment variables: " + ("X_API_KEY" + ", " + "X_API_KEY_SECRET" + ", "
                    + "X_ACCESS_TOKEN" + ", " + "X_ACCESS_TOKEN_SECRET"))), [])
  {
    NoCredentialsMissing();
    CredentialNamesJoined();
    var h := Handle(req, map[], twitter);
    assert h.uploads == [] && h.response.status == 500;
    assert h.response.body == ConfigErrorBody("Server configuration error",
                                              "Missing environment variables: " + Join(CredentialNames, ", "));
  }
}
