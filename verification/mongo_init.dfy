/**
 * database/mongo/initMongo.mjs and its duplicate database/mongo/mongo.mjs:
 * `initMongo` builds the connection URL (defaulting it and making sure it
 * names an `authSource`), connects, and on success publishes the database in
 * the module-level `mongoDb` that `getMongoDb()` hands to every handler.
 */
module MongoInit {
  import opened Wrappers
  import opened JsString
  import opened Notifications

  const DefaultUrl: string := "mongodb://localhost:27017/noona"
  const AuthSource: string := "authSource="

  /** A string that lacks one of the characters of `sub` cannot include it. */
  lemma {:induction false} MissingCharExcludes(s: string, sub: string, c: char)
    requires c in sub && c !in s
    ensures !Includes(s, sub)
    decreases |s|
  {
    if s != [] {
      MissingCharExcludes(s[1..], sub, c);
      assert forall i :: 0 <= i < |s[1..]| ==> s[1..][i] in s;
    }
  }

  /** `url + separator + 'authSource=admin'`: an extension of `url` that names an `authSource`. */
  function AppendAuthSource(url: string, separator: string): (r: string)
    requires separator == "&" || separator == "?"
    ensures Includes(r, AuthSource) && IsPrefix(url, r)
    ensures separator == "&" ==> r == url + "&authSource=admin"
    ensures separator == "?" ==> r == url + "?authSource=admin"
  {
    IncludesSuffix(url + separator, AuthSource);
    IncludesExtend(url + separator + AuthSource, AuthSource, "admin");
    assert (url + separator + AuthSource + "admin")[..|url|] == url;
    AdminSuffix();
    assert url + separator + AuthSource + "admin" == url + (separator + AuthSource + "admin");
    url + separator + AuthSource + "admin"
  }

  /** The appended text, spelled out: the separator, then `authSource=admin`. */
  lemma AdminSuffix()
    ensures "&" + AuthSource + "admin" == "&authSource=admin"
    ensures "?" + AuthSource + "admin" == "?authSource=admin"
  {
  }

  /**
   * `if (!url.includes('authSource=')) url += (url.includes('?') ? '&' : '?') + 'authSource=admin'`:
   * the URL is only ever extended, and afterwards it names an `authSource`;
   * the separator is `&` when the URL already has a query string, `?` otherwise.
   */
  function NormalizeAuthSource(url: string): (r: string)
    ensures Includes(r, AuthSource)
    ensures IsPrefix(url, r)
    ensures Includes(url, AuthSource) <==> r == url
    ensures !Includes(url, AuthSource) && Includes(url, "?") ==> r == url + "&authSource=admin"
    ensures !Includes(url, AuthSource) && !Includes(url, "?") ==> r == url + "?authSource=admin"
  {
    if Includes(url, AuthSource) then url
    else AppendAuthSource(url, if Includes(url, "?") then "&" else "?")
  }

  /** `process.env.MONGO_URL || 'mongodb://localhost:27017/noona'`, normalised. */
  function MongoUrl(mongoUrlEnv: Option<string>): (url: string)
    ensures Includes(url, AuthSource)
    ensures Truthy(mongoUrlEnv) ==> IsPrefix(mongoUrlEnv.value, url)
  {
    NormalizeAuthSource(if Truthy(mongoUrlEnv) then mongoUrlEnv.value else DefaultUrl)
  }

  /** Normalising a normalised URL changes nothing. */
  lemma NormalizeIdempotent(url: string)
    ensures NormalizeAuthSource(NormalizeAuthSource(url)) == NormalizeAuthSource(url)
  {
  }

  /** With `MONGO_URL` unset the server connects to the default URL with `?authSource=admin` appended. */
  lemma DefaultMongoUrl()
    ensures MongoUrl(None) == DefaultUrl + "?" + AuthSource + "admin"
  {
    DefaultUrlChars();
    MissingCharExcludes(DefaultUrl, AuthSource, '=');
    MissingCharExcludes(DefaultUrl, "?", '?');
  }

  lemma DefaultUrlChars()
    ensures '=' in AuthSource && '=' !in DefaultUrl && '?' !in DefaultUrl
  {
    assert AuthSource[10] == '=';
  }

  /** The module state: `let mongoDb = null`, read by `getMongoDb()`. */
  class MongoModule {
    var mongoDb: NotificationStore?

    constructor ()
      ensures mongoDb == null
    {
      mongoDb := null;
    }

    /** `getMongoDb()`: the database of the last successful connect, null before any. */
    function GetMongoDb(): NotificationStore?
      reads this
    {
      mongoDb
    }

    /**
     * `initMongo()`: `connected` is what `mongoose.connect(url)` yields for the
     * normalised URL, null when it throws. A failed connect returns false and
     * leaves the handle as it was.
     */
    method InitMongo(mongoUrlEnv: Option<string>, connected: NotificationStore?)
      returns (url: string, result: Option<NotificationStore>)
      modifies this
      ensures url == MongoUrl(mongoUrlEnv)
      ensures connected == null ==> result == None && mongoDb == old(mongoDb)
      ensures connected != null ==> result == Some(connected) && GetMongoDb() == connected
    {
      url := MongoUrl(mongoUrlEnv);
      if connected == null {
        return url, None;
      }
      mongoDb := connected;
      result := Some(connected);
    }
  }
}
