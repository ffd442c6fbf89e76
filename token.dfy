/**
 * The OAuth credential pair (resource owner key and secret) and its JSON
 * object form in a token file (etsy/_token.py).
 */
module Tokens {
  import opened Results

  /** An `OAuthToken`: either field may be `None`; `OAuthToken()` has both `None`. */
  datatype OAuthToken = OAuthToken(resourceOwnerKey: Option<string>, resourceOwnerSecret: Option<string>)

  const KeyField := "resource_owner_key"
  const SecretField := "resource_owner_secret"

  /** The JSON object stored in a token file. */
  type TokenDict = map<string, string>

  /**
   * `to_dict`: each field that is not `None` under its own name, and no
   * other entry; a field that is `None` is omitted rather than stored as null.
   */
  function ToDict(t: OAuthToken): (d: TokenDict)
    ensures KeyField in d <==> t.resourceOwnerKey.Some?
    ensures SecretField in d <==> t.resourceOwnerSecret.Some?
    ensures t.resourceOwnerKey.Some? ==> d[KeyField] == t.resourceOwnerKey.value
    ensures t.resourceOwnerSecret.Some? ==> d[SecretField] == t.resourceOwnerSecret.value
    ensures d.Keys <= {KeyField, SecretField}
  {
    var d: TokenDict := map[];
    var d := if t.resourceOwnerKey.Some? then d[KeyField := t.resourceOwnerKey.value] else d;
    if t.resourceOwnerSecret.Some? then d[SecretField := t.resourceOwnerSecret.value] else d
  }

  /** `dict.get`: `None` for a missing key. */
  function Lookup(d: TokenDict, field: string): Option<string> {
    if field in d then Some(d[field]) else None
  }

  /** The token `load` builds from a parsed token file: fields read with `.get`. */
  function FromDict(d: TokenDict): (t: OAuthToken)
    ensures t.resourceOwnerKey.None? <==> KeyField !in d
    ensures t.resourceOwnerSecret.None? <==> SecretField !in d
    ensures KeyField in d ==> t.resourceOwnerKey == Some(d[KeyField])
    ensures SecretField in d ==> t.resourceOwnerSecret == Some(d[SecretField])
  {
    OAuthToken(Lookup(d, KeyField), Lookup(d, SecretField))
  }

  /** Decoding what `to_dict` produced gives back the same token. */
  lemma DictRoundTrip(t: OAuthToken)
    ensures FromDict(ToDict(t)) == t
  {
  }

  /** Encoding a decoded token keeps exactly the two known entries of the file. */
  lemma DictDropsUnknownFields(d: TokenDict)
    ensures ToDict(FromDict(d)) == map k | k in d && k in {KeyField, SecretField} :: d[k]
  {
    var e := ToDict(FromDict(d));
    var m := map k | k in d && k in {KeyField, SecretField} :: d[k];
    assert e.Keys == m.Keys;
  }

  /** A token without key and secret is written as the empty object. */
  lemma EmptyTokenIsEmptyDict()
    ensures ToDict(OAuthToken(None, None)) == map[]
  {
  }

  /** Token files on disk, by path, already parsed from JSON. */
  type TokenFiles = map<string, TokenDict>

  datatype TokenFileError = FileNotFound(path: string)

  /** `OAuthToken.save`: the file at `path` is (over)written with `to_dict()`. */
  function Save(t: OAuthToken, path: string, files: TokenFiles): (files': TokenFiles)
    ensures path in files' && files'[path] == ToDict(t)
    ensures forall p :: p != path ==> (p in files' <==> p in files)
    ensures forall p :: p != path && p in files ==> files'[p] == files[p]
  {
    files[path := ToDict(t)]
  }

  /** `OAuthToken.load`: opening a missing file raises. */
  function Load(path: string, files: TokenFiles): (r: Result<OAuthToken, TokenFileError>)
    ensures r.Err? <==> path !in files
    ensures r.Ok? ==> r.value == FromDict(files[path])
  {
    if path in files then Ok(FromDict(files[path])) else Err(FileNotFound(path))
  }

  /** Saving a token and loading it back yields the same key and secret. */
  lemma SaveLoadRoundTrip(t: OAuthToken, path: string, files: TokenFiles)
    ensures Load(path, Save(t, path, files)) == Ok(t)
  {
    DictRoundTrip(t);
  }
}
