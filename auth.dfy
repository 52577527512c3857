/** The credential store (`pre_verify`): the set of `proxy-authorization`
    values the proxy accepts, built once from a JSON object of user/password
    pairs, and the membership check applied to each request. The tokens are
    those of the Basic scheme of section 2 of RFC 7617. */
module Auth {
  import opened Js
  import opened Base64

  /** One user/password pair of the parsed JSON object, after JavaScript's
      string concatenation has turned the password into text. */
  type Entry = (string, string)

  /** `user + ':' + pass` */
  function Credential(e: Entry): string {
    e.0 + ":" + e.1
  }

  predicate AllLatin1(entries: seq<Entry>) {
    forall e :: e in entries ==> IsLatin1(Credential(e))
  }

  /** `'Basic ' + btoa(user + ':' + pass)` for a credential `btoa` accepts. */
  function BasicToken(e: Entry): string
    requires IsLatin1(Credential(e))
  {
    "Basic " + Encode(Latin1Bytes(Credential(e)))
  }

  /** The set the store should be: one token per entry. */
  function TokenSet(entries: seq<Entry>): set<string>
    requires AllLatin1(entries)
  {
    set e | e in entries :: BasicToken(e)
  }

  /** `Object.entries(..).map(btoa(user + ':' + pass)).map('Basic ' + _)`:
      the first code unit above 0xFF anywhere aborts with `btoa`'s error. */
  function Tokens(entries: seq<Entry>): (r: Result<seq<string>>)
    ensures r.Ok? <==> AllLatin1(entries)
    ensures r.Err? ==> r.error == Raised(InvalidCharacter)
    ensures r.Ok? ==> |r.value| == |entries|
    ensures r.Ok? ==> forall i :: 0 <= i < |entries| ==> r.value[i] == BasicToken(entries[i])
  {
    if entries == [] then Ok([])
    else
      match Btoa(Credential(entries[0]))
      case Err(e) => Err(e)
      case Ok(b) =>
        match Tokens(entries[1..])
        case Err(e) =>
          assert forall x :: x in entries[1..] ==> x in entries;
          Err(e)
        case Ok(rest) =>
          assert forall x :: x in entries ==> x == entries[0] || x in entries[1..];
          Ok(["Basic " + b] + rest)
  }

  /** Where the JSON text comes from: given inline, or read from a file. */
  datatype Source = Inline(text: string) | Location(url: string)

  const EmptyAuthFile: Error := PlainError("empty auth file")

  /** The cause text of the re-thrown error: ': ' followed by the inner
      error's cause, or its message when it has none; nothing for a thrown
      value that is no `Error`. */
  function FailureCause(t: Thrown): string {
    match t
    case Raised(e) => ": " + (if e.cause.Some? then e.cause.value else e.message)
    case NonError(_) => ""
  }

  /** `new Error('fail to read auth file', { cause })` */
  function ReadFailure(t: Thrown): Thrown {
    Raised(ErrorWithCause("fail to read auth file", FailureCause(t)))
  }

  predicate IsReadFailure(t: Thrown) {
    t.Raised? && t.err.message == "fail to read auth file" && t.err.cause.Some?
  }

  /** The text, read when the source is a file, then parsed; `read` and
      `parse` stand for the file reader and `JSON.parse` with `Object.entries`. */
  function Entries(source: Source, read: string -> Result<string>, parse: string -> Result<seq<Entry>>): Result<seq<Entry>> {
    var data := match source
      case Inline(text) => Ok(text)
      case Location(url) => read(url);
    match data
    case Err(e) => Err(e)
    case Ok(text) => parse(text)
  }

  /** The `Set` built from the token list is the token set of the entries. */
  lemma {:induction false} StoreIsTokenSet(entries: seq<Entry>, tokens: seq<string>)
    requires AllLatin1(entries)
    requires |tokens| == |entries|
    requires forall i :: 0 <= i < |entries| ==> tokens[i] == BasicToken(entries[i])
    ensures (set i | 0 <= i < |tokens| :: tokens[i]) == TokenSet(entries)
  {
    var store := set i | 0 <= i < |tokens| :: tokens[i];
    forall t | t in TokenSet(entries) ensures t in store {
      var e :| e in entries && t == BasicToken(e);
      var i :| 0 <= i < |entries| && entries[i] == e;
      assert tokens[i] == t;
    }
  }

  /** The token set is empty exactly when there are no entries. */
  lemma TokenSetEmpty(entries: seq<Entry>)
    requires AllLatin1(entries)
    ensures |TokenSet(entries)| < 1 <==> entries == []
  {
    if entries != [] {
      assert BasicToken(entries[0]) in TokenSet(entries);
    }
  }

  /** The store built from the entries, before the re-throw: the token set,
      `btoa`'s error, or 'empty auth file' when there are no entries. */
  function Store(entries: seq<Entry>): (r: Result<set<string>>)
    ensures r.Ok? <==> entries != [] && AllLatin1(entries)
    ensures r.Ok? ==> |r.value| >= 1 && r.value == TokenSet(entries)
    ensures r.Err? ==> r.error == if AllLatin1(entries) then Raised(EmptyAuthFile) else Raised(InvalidCharacter)
  {
    match Tokens(entries)
    case Err(e) => Err(e)
    case Ok(tokens) =>
      var store := set i | 0 <= i < |tokens| :: tokens[i];
      StoreIsTokenSet(entries, tokens);
      TokenSetEmpty(entries);
      if |store| < 1 then Err(Raised(EmptyAuthFile)) else Ok(store)
  }

  /** `pre_verify(..)(source)`: the store, or a rejection. Every failure,
      whether of the read, of the parse, of `btoa` or the store being empty,
      surfaces as 'fail to read auth file'; a store is never empty. */
  function Verify(source: Source, read: string -> Result<string>, parse: string -> Result<seq<Entry>>): (r: Result<set<string>>)
    ensures r.Err? ==> IsReadFailure(r.error)
    ensures Entries(source, read, parse).Err? ==> r == Err(ReadFailure(Entries(source, read, parse).error))
    ensures Entries(source, read, parse).Ok? && Store(Entries(source, read, parse).value).Err? ==>
      r == Err(ReadFailure(Store(Entries(source, read, parse).value).error))
    ensures r.Ok? <==> Entries(source, read, parse).Ok? && Store(Entries(source, read, parse).value).Ok?
    ensures r.Ok? ==> |r.value| >= 1 && r.value == TokenSet(Entries(source, read, parse).value)
  {
    match Entries(source, read, parse)
    case Err(e) => Err(ReadFailure(e))
    case Ok(entries) =>
      match Store(entries)
      case Err(e) => Err(ReadFailure(e))
      case Ok(store) => Ok(store)
  }

  /** An object without entries is an error, not a store that admits nobody. */
  lemma VerifyRejectsEmptyObject(source: Source, read: string -> Result<string>, parse: string -> Result<seq<Entry>>)
    requires Entries(source, read, parse) == Ok([])
    ensures Verify(source, read, parse) == Err(ReadFailure(Raised(EmptyAuthFile)))
    ensures Show(Verify(source, read, parse).error) == "Error: fail to read auth file"
  {
  }

  /** A failed read is re-thrown under the common message, with the reader's
      own cause kept in the cause, or its message when it has no cause. */
  lemma VerifyReadFails(url: string, read: string -> Result<string>, parse: string -> Result<seq<Entry>>)
    requires read(url).Err? && read(url).error.Raised?
    ensures Verify(Location(url), read, parse).Err?
    ensures read(url).error.err.cause.None? ==>
      Verify(Location(url), read, parse).error.err.cause == Some(": " + read(url).error.err.message)
    ensures read(url).error.err.cause.Some? ==>
      Verify(Location(url), read, parse).error.err.cause == Some(": " + read(url).error.err.cause.value)
  {
  }

  /** `check(headers)`: the header is present and exactly one of the store's
      tokens. */
  function Check(store: set<string>, header: Option<string>): (ok: bool)
    ensures header.None? ==> !ok
    ensures ok <==> header.Some? && header.value in store
  {
    header.Some? && header.value in store
  }

  /** The check built from a set of entries admits exactly the Basic tokens of
      those entries, case and all, and nothing when the header is missing. */
  lemma CheckAdmitsExactlyConfigured(entries: seq<Entry>, header: Option<string>)
    requires AllLatin1(entries)
    ensures Check(TokenSet(entries), header) <==> exists e :: e in entries && header == Some(BasicToken(e))
  {
  }

  /** Every accepted header carries, in base64, the credential of an entry. */
  lemma AcceptedHeaderDecodes(entries: seq<Entry>, h: string)
    requires AllLatin1(entries)
    requires Check(TokenSet(entries), Some(h))
    ensures |h| >= 6 && h[..6] == "Basic "
    ensures exists e :: e in entries && Decode(h[6..]) == Some(Latin1Bytes(Credential(e)))
  {
    var e :| e in entries && h == BasicToken(e);
    DecodeEncode(Latin1Bytes(Credential(e)));
    assert h[6..] == Encode(Latin1Bytes(Credential(e)));
  }

  /** Two entries share a token only when their credentials are the same text. */
  lemma TokenInjective(e1: Entry, e2: Entry)
    requires IsLatin1(Credential(e1)) && IsLatin1(Credential(e2))
    requires BasicToken(e1) == BasicToken(e2)
    ensures Credential(e1) == Credential(e2)
  {
    var a, b := Encode(Latin1Bytes(Credential(e1))), Encode(Latin1Bytes(Credential(e2)));
    assert a == BasicToken(e1)[6..] && b == BasicToken(e2)[6..];
    assert Btoa(Credential(e1)) == Ok(a) && Btoa(Credential(e2)) == Ok(b);
    BtoaInjective(Credential(e1), Credential(e2));
  }

  /** Duplicates collapse: a user "a:b" with password "c" and a user "a" with
      password "b:c" give one token between them. */
  lemma ColonCredentialsCollapse()
    ensures AllLatin1([("a:b", "c"), ("a", "b:c")])
    ensures |TokenSet([("a:b", "c"), ("a", "b:c")])| == 1
  {
    var es := [("a:b", "c"), ("a", "b:c")];
    assert Credential(es[0]) == Credential(es[1]) == "a:b:c";
    assert forall e :: e in es ==> Credential(e) == "a:b:c";
    assert TokenSet(es) == {BasicToken(es[0])};
  }
}
