/** The driver configuration: the naming rules the LINQ provider uses to map
    .NET members and types to ArangoDB names, and the `ConnectionString`
    setter, which reads the server, realm, credentials, endpoints and the
    dirty-read switch out of a connection string. */
module Configuration {
  import opened Common
  import opened Expressions

  // ---------------------------------------------------------------------------
  // Naming rules installed by the constructor
  // ---------------------------------------------------------------------------

  /** The .NET member names that stand for ArangoDB system attributes. */
  const SystemAttributes: map<string, string> :=
    map["Key" := "_key", "Id" := "_id", "Revision" := "_rev", "From" := "_from", "To" := "_to"]

  /** The default `ResolveProperty`: a system-attribute name is rewritten,
      any other member name is kept; the declaring type plays no part. A
      rewritten name is always a system attribute, starting with `_`. */
  function ResolveProperty(t: TypeDesc, name: string): (r: string)
    ensures r == name || (|r| > 1 && r[0] == '_')
  {
    if name == "Key" then "_key"
    else if name == "Id" then "_id"
    else if name == "Revision" then "_rev"
    else if name == "From" then "_from"
    else if name == "To" then "_to"
    else name
  }

  /** `ResolveProperty` rewrites exactly the names of the system-attribute
      table, to their table entry, for every declaring type. */
  lemma ResolvePropertyTable(t: TypeDesc, name: string)
    ensures name in SystemAttributes ==> ResolveProperty(t, name) == SystemAttributes[name]
    ensures name !in SystemAttributes ==> ResolveProperty(t, name) == name
    ensures ResolveProperty(t, name) != name <==> name in SystemAttributes
  {
  }

  /** The declaring type never affects the resolved name. */
  lemma ResolvePropertyIgnoresType(t1: TypeDesc, t2: TypeDesc, name: string)
    ensures ResolveProperty(t1, name) == ResolveProperty(t2, name)
  {
  }

  /** A resolved name resolves to itself: no system attribute name is a key
      of the table. */
  lemma ResolvePropertyIdempotent(t: TypeDesc, name: string)
    ensures ResolveProperty(t, ResolveProperty(t, name)) == ResolveProperty(t, name)
  {
  }

  /** The default `ResolveCollection`: the name given by the type's
      `CollectionPropertyAttribute` (which may itself be null), otherwise the
      type's own name. */
  function ResolveCollection(t: TypeDesc): (r: Option<string>)
    ensures t.collectionProperty.Some? ==> r == t.collectionProperty.value.collectionName
    ensures t.collectionProperty.None? ==> r == Some(t.name)
  {
    match t.collectionProperty
    case Some(attribute) => attribute.collectionName
    case None => Some(t.name)
  }

  /** The default `ResolveGroupBy`: group keys keep their names. */
  function ResolveGroupBy(name: string): (r: string)
    ensures r == name
  {
    name
  }

  // ---------------------------------------------------------------------------
  // SplitAndRemoveEmptyEntries
  // ---------------------------------------------------------------------------

  /** The number of leading characters of `s` that are not `sep`. */
  function TokenLength(s: string, sep: char): (n: nat)
    ensures n <= |s|
    ensures forall i :: 0 <= i < n ==> s[i] != sep
    ensures n < |s| ==> s[n] == sep
  {
    if s == [] || s[0] == sep then 0 else 1 + TokenLength(s[1..], sep)
  }

  /** The `SplitAndRemoveEmptyEntries(sep)` string extension, whose body is
      not part of this model. It is assumed to be
      `s.Split(sep, StringSplitOptions.RemoveEmptyEntries)`: the maximal runs
      of `s` free of `sep`, empty runs dropped, no part trimmed. */
  function SplitAndRemoveEmptyEntries(s: string, sep: char): (parts: seq<string>)
    ensures forall i :: 0 <= i < |parts| ==> parts[i] != [] && sep !in parts[i]
    decreases |s|
  {
    if s == [] then []
    else if s[0] == sep then SplitAndRemoveEmptyEntries(s[1..], sep)
    else
      var n := TokenLength(s, sep);
      [s[..n]] + SplitAndRemoveEmptyEntries(s[n..], sep)
  }

  /** `s` with every `sep` deleted. */
  function Without(s: string, sep: char): string
  {
    if s == [] then [] else (if s[0] == sep then [] else [s[0]]) + Without(s[1..], sep)
  }

  /** The parts concatenated. */
  function Concat(parts: seq<string>): string
  {
    if parts == [] then [] else parts[0] + Concat(parts[1..])
  }

  /** The parts joined with `sep` between them. */
  function Join(parts: seq<string>, sep: char): string
  {
    if parts == [] then []
    else if |parts| == 1 then parts[0]
    else parts[0] + [sep] + Join(parts[1..], sep)
  }

  lemma {:induction false} WithoutAppend(a: string, b: string, sep: char)
    ensures Without(a + b, sep) == Without(a, sep) + Without(b, sep)
    decreases |a|
  {
    if a != [] {
      assert (a + b)[1..] == a[1..] + b;
      WithoutAppend(a[1..], b, sep);
    } else {
      assert a + b == b;
    }
  }

  lemma {:induction false} WithoutNone(s: string, sep: char)
    requires sep !in s
    ensures Without(s, sep) == s
    decreases |s|
  {
    if s != [] {
      WithoutNone(s[1..], sep);
    }
  }

  /** Splitting loses only the separators: the parts concatenated are `s`
      with every separator deleted. */
  lemma {:induction false} SplitKeepsText(s: string, sep: char)
    ensures Concat(SplitAndRemoveEmptyEntries(s, sep)) == Without(s, sep)
    decreases |s|
  {
    if s != [] {
      if s[0] == sep {
        SplitKeepsText(s[1..], sep);
      } else {
        var n := TokenLength(s, sep);
        var parts := SplitAndRemoveEmptyEntries(s, sep);
        assert parts[1..] == SplitAndRemoveEmptyEntries(s[n..], sep);
        SplitKeepsText(s[n..], sep);
        assert s == s[..n] + s[n..];
        WithoutAppend(s[..n], s[n..], sep);
        WithoutNone(s[..n], sep);
      }
    }
  }

  lemma {:induction false} TokenLengthOfPart(p: string, rest: string, sep: char)
    requires sep !in p
    requires rest == [] || rest[0] == sep
    ensures TokenLength(p + rest, sep) == |p|
    decreases |p|
  {
    if p == [] {
      assert p + rest == rest;
    } else {
      assert (p + rest)[1..] == p[1..] + rest;
      TokenLengthOfPart(p[1..], rest, sep);
    }
  }

  /** Splitting undoes joining, for non-empty parts free of the separator. */
  lemma {:induction false} SplitJoin(parts: seq<string>, sep: char)
    requires forall i :: 0 <= i < |parts| ==> parts[i] != [] && sep !in parts[i]
    ensures SplitAndRemoveEmptyEntries(Join(parts, sep), sep) == parts
    decreases |parts|
  {
    if parts != [] {
      var p := parts[0];
      if |parts| == 1 {
        TokenLengthOfPart(p, [], sep);
        assert p + [] == p;
        assert p[..|p|] == p && p[|p|..] == [];
      } else {
        var rest := Join(parts[1..], sep);
        var s := p + [sep] + rest;
        assert s == p + ([sep] + rest);
        TokenLengthOfPart(p, [sep] + rest, sep);
        assert s[..|p|] == p;
        assert s[|p|..] == [sep] + rest;
        assert ([sep] + rest)[1..] == rest;
        SplitJoin(parts[1..], sep);
      }
    }
  }

  // ---------------------------------------------------------------------------
  // The ConnectionString setter
  // ---------------------------------------------------------------------------

  /** `builder.TryGetValue(key, out v)` followed by `v as string`. */
  function Lookup(settings: map<string, string>, key: string): (r: Option<string>)
    ensures r.Some? <==> key in settings
    ensures r.Some? ==> r.value == settings[key]
  {
    if key in settings then Some(settings[key]) else None
  }

  /** `u as string ?? uid as string`: `User` wins over `User ID`. */
  function UserOf(settings: map<string, string>): (r: Option<string>)
    ensures "User" in settings ==> r == Some(settings["User"])
    ensures "User" !in settings ==> r == Lookup(settings, "User ID")
  {
    match Lookup(settings, "User")
    case Some(u) => Some(u)
    case None => Lookup(settings, "User ID")
  }

  /** The `Endpoints` list the setter stores: the value it reads under the
      `AllowDirtyRead` key, split on commas, or null when that key is absent. */
  function EndpointsAsWritten(settings: map<string, string>): (r: Option<seq<string>>)
    ensures r.Some? <==> "AllowDirtyRead" in settings
    ensures r.Some? ==> r.value == SplitAndRemoveEmptyEntries(settings["AllowDirtyRead"], ',')
  {
    match Lookup(settings, "AllowDirtyRead")
    case Some(dr) => Some(SplitAndRemoveEmptyEntries(dr, ','))
    case None => None
  }

  /** The `Endpoints` list read under its own key, as the discarded
      `TryGetValue("Endpoints", …)` suggests was meant. */
  function IntendedEndpoints(settings: map<string, string>): (r: Option<seq<string>>)
    ensures r.Some? <==> "Endpoints" in settings
    ensures r.Some? ==> r.value == SplitAndRemoveEmptyEntries(settings["Endpoints"], ',')
  {
    match Lookup(settings, "Endpoints")
    case Some(e) => Some(SplitAndRemoveEmptyEntries(e, ','))
    case None => None
  }

  /** With the intended reading, a comma-joined endpoint list written under
      `Endpoints` comes back as that list, whatever `AllowDirtyRead` says. */
  lemma IntendedEndpointsRoundTrip(settings: map<string, string>, endpoints: seq<string>)
    requires forall i :: 0 <= i < |endpoints| ==> endpoints[i] != [] && ',' !in endpoints[i]
    requires "Endpoints" in settings && settings["Endpoints"] == Join(endpoints, ',')
    ensures IntendedEndpoints(settings) == Some(endpoints)
  {
    SplitJoin(endpoints, ',');
  }

  /** As written, an `Endpoints` entry is ignored and the dirty-read flag's
      text becomes the endpoint list. */
  lemma EndpointsKeyIgnored()
    ensures var settings := map["Server" := "http://db:8529", "Endpoints" := "a,b"];
      EndpointsAsWritten(settings) == None && IntendedEndpoints(settings) == Some(["a", "b"])
    ensures var settings := map["Server" := "http://db:8529", "AllowDirtyRead" := "true"];
      EndpointsAsWritten(settings) == Some(["true"]) && IntendedEndpoints(settings) == None
  {
    var e := map["Server" := "http://db:8529", "Endpoints" := "a,b"];
    assert "AllowDirtyRead" !in e;
    IntendedEndpointsRoundTrip(e, ["a", "b"]);
    var d := map["Server" := "http://db:8529", "AllowDirtyRead" := "true"];
    assert "Endpoints" !in d;
    SplitJoin(["true"], ',');
  }

  /** `allowDirtyRead?.Equals("true", InvariantCultureIgnoreCase) == true`. */
  predicate DirtyReadRequested(settings: map<string, string>)
  {
    "AllowDirtyRead" in settings && EqualsIgnoreCase(settings["AllowDirtyRead"], "true")
  }

  /** The driver configuration object. The serializer, transport, HTTP client
      and query-profile hook are not part of this model. */
  class ArangoConfiguration {
    var connectionString: Option<string>
    var realm: Option<string>
    var server: Option<string>
    var user: Option<string>
    var password: Option<string>
    var batchSize: int
    var allowDirtyRead: bool
    var endpoints: Option<seq<string>>
    var resolveProperty: (TypeDesc, string) -> string
    var resolveCollection: TypeDesc -> Option<string>
    var resolveGroupBy: string -> string

    /** The defaults: batches of 500 and the naming rules above. */
    constructor ()
      ensures batchSize == 500
      ensures forall t, name :: resolveProperty(t, name) == ResolveProperty(t, name)
      ensures forall t :: resolveCollection(t) == ResolveCollection(t)
      ensures forall name :: resolveGroupBy(name) == ResolveGroupBy(name)
      ensures connectionString.None? && realm.None? && server.None? && user.None? && password.None?
      ensures !allowDirtyRead && endpoints.None?
    {
      batchSize := 500;
      resolveCollection := ResolveCollection;
      resolveProperty := ResolveProperty;
      resolveGroupBy := ResolveGroupBy;
      connectionString, realm, server, user, password := None, None, None, None, None;
      allowDirtyRead := false;
      endpoints := None;
    }

    /** The `ConnectionString` setter. `settings` is what
        `DbConnectionStringBuilder` parses out of `value`. The raw string is
        stored first; a blank `Server` then throws and nothing else changes.
        Otherwise realm, server, user and password are replaced, `Endpoints`
        is taken from the `Endpoints` value (the source reads it from the
        `AllowDirtyRead` value instead; see `EndpointsAsWritten`), and the
        dirty-read switch is turned on (never off) by a case-insensitive
        `true`. */
    method SetConnectionString(value: Option<string>, settings: map<string, string>) returns (outcome: Outcome)
      modifies this`connectionString, this`realm, this`server, this`user, this`password,
               this`endpoints, this`allowDirtyRead
      ensures connectionString == value
      ensures IsNullOrWhiteSpace(Lookup(settings, "Server")) ==>
        && outcome == Fail(Argument("Server invalid", None))
        && realm == old(realm) && server == old(server) && user == old(user) && password == old(password)
        && endpoints == old(endpoints) && allowDirtyRead == old(allowDirtyRead)
      ensures !IsNullOrWhiteSpace(Lookup(settings, "Server")) ==>
        && outcome == Pass
        && server == Lookup(settings, "Server")
        && realm == Lookup(settings, "Realm")
        && user == UserOf(settings)
        && password == Lookup(settings, "Password")
        && endpoints == IntendedEndpoints(settings)
        && allowDirtyRead == (old(allowDirtyRead) || DirtyReadRequested(settings))
    {
      connectionString := value;
      var s := Lookup(settings, "Server");
      var r := Lookup(settings, "Realm");
      var uid := Lookup(settings, "User ID");
      var u := Lookup(settings, "User");
      var p := Lookup(settings, "Password");
      var dr := Lookup(settings, "AllowDirtyRead");

      var ep := Lookup(settings, "Endpoints");

      var newUser := if u.Some? then u else uid;
      var newEndpoints := ep;

      if IsNullOrWhiteSpace(s) {
        return Fail(Argument("Server invalid", None));
      }

      realm := r;
      server := s;
      user := newUser;
      password := p;

      endpoints := match newEndpoints
        case Some(e) => Some(SplitAndRemoveEmptyEntries(e, ','))
        case None => None;

      if dr.Some? && EqualsIgnoreCase(dr.value, "true") {
        allowDirtyRead := true;
      }
      outcome := Pass;
    }
  }
}
