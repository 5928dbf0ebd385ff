/**
 * The resource router factory `APIRequest.resource(name, pluralize_name = true)` of
 * `src/core/APIRequest.ts`: a fixed pluralisation heuristic, the resource path it
 * yields, the five route requests, and the `describe()` table.
 */
module Resource {
  import opened Wrappers
  import opened Strings
  import opened Transport
  import SessionStore

  /** The pluralisation heuristic: `es` after a trailing `s`, otherwise `s`. */
  function Pluralize(name: string): (r: string)
    ensures |r| == |name| + (if EndsWith(name, "s") then 2 else 1)
    ensures r[..|name|] == name
    ensures EndsWith(r, "s")
    ensures EndsWith(name, "s") ==> EndsWith(r, "es")
  {
    if EndsWith(name, "s") then name + "es" else name + "s"
  }

  /** A plural always ends in `s`, so pluralising it again only appends `es`. */
  lemma PluralizeTwice(name: string)
    ensures Pluralize(Pluralize(name)) == Pluralize(name) + "es"
  {
  }

  /** The heuristic is not idempotent: a plural is always changed again. */
  lemma PluralizeNotIdempotent(name: string)
    ensures Pluralize(Pluralize(name)) != Pluralize(name)
  {
  }

  /** Two different names can share a plural: `bus` and `buse` both become `buses`. */
  lemma PluralizeCollides()
    ensures Pluralize("bus") == Pluralize("buse") == "buses"
  {
  }

  /**
   * The resource path: the name is pluralised when `pluralize_name` is set, and the
   * result is then pluralised once more, unconditionally.
   */
  function ResourcePath(name: string, pluralizeName: bool): (path: string)
    ensures |path| >= 2 && path[0] == '/' && EndsWith(path, "s")
    ensures pluralizeName ==> path == "/" + Pluralize(name) + "es"
    ensures !pluralizeName ==> path == "/" + Pluralize(name)
  {
    var n := if pluralizeName then Pluralize(name) else name;
    PluralizeTwice(name);
    EndsWithPrepend("/", Pluralize(n), "s");
    "/" + Pluralize(n)
  }

  /** Concrete paths: the default flag gives `/carses` and `/buseses`; without it, `/cars` and `/buses`. */
  lemma ResourcePathExamples()
    ensures ResourcePath("car", true) == "/carses"
    ensures ResourcePath("car", false) == "/cars"
    ensures ResourcePath("bus", true) == "/buseses"
    ensures ResourcePath("bus", false) == "/buses"
  {
    assert !EndsWith("car", "s") && "car" + "s" == "cars";
    assert EndsWith("bus", "s") && "bus" + "es" == "buses";
    assert ResourcePath("car", true) == "/" + "cars" + "es";
    assert ResourcePath("car", false) == "/" + "cars";
    assert ResourcePath("bus", true) == "/" + "buses" + "es";
    assert ResourcePath("bus", false) == "/" + "buses";
  }

  /** A resource identifier, `number | string`; interpolated verbatim into the URL. */
  datatype Id = NumericId(n: int) | StringId(s: string)

  /** `${id}`: a string as is, an integer in decimal. */
  function IdSegment(id: Id): string {
    match id
    case NumericId(n) => IntToString(n)
    case StringId(s) => s
  }

  /** The five resourceful routes with their arguments. */
  datatype Action = Index | Show(id: Id) | Store(data: Data) | Update(id: Id, data: Data) | Destroy(id: Id)

  predicate HasId(a: Action) {
    a.Show? || a.Update? || a.Destroy?
  }

  function ActionName(a: Action): string {
    match a
    case Index => "index"
    case Show(_) => "show"
    case Store(_) => "store"
    case Update(_, _) => "update"
    case Destroy(_) => "destroy"
  }

  function RouteVerb(a: Action): Verb {
    match a
    case Index => GET
    case Show(_) => GET
    case Store(_) => POST
    case Update(_, _) => PUT
    case Destroy(_) => DELETE
  }

  /** The URL a route targets, relative to the base address. */
  function RouteUrl(path: string, a: Action): (url: string)
    ensures HasId(a) ==> url == path + "/" + IdSegment(a.id)
    ensures !HasId(a) ==> url == path
  {
    match a
    case Index => path
    case Store(_) => path
    case Show(id) => path + "/" + IdSegment(id)
    case Update(id, _) => path + "/" + IdSegment(id)
    case Destroy(id) => path + "/" + IdSegment(id)
  }

  function RoutePayload(a: Action): (p: Payload)
    ensures p.NoPayload? <==> !(a.Store? || a.Update?)
    ensures a.Store? || a.Update? ==> p == Body(a.data)
  {
    match a
    case Store(d) => Body(d)
    case Update(_, d) => Body(d)
    case _ => NoPayload
  }

  /**
   * One route call. Routes dispatch on the client directly, not through the verb
   * wrappers, so a failure surfaces with its original message, without a prefix.
   */
  function Route<B>(store: SessionStore.Store, path: string, a: Action, outcome: Outcome<B>): (c: Call<B>)
    ensures c.request == MakeRequest(store, RouteVerb(a), RouteUrl(path, a), RoutePayload(a))
    ensures c.result.Ok? <==> outcome.Delivered?
    ensures outcome.Delivered? ==> c.result.value == outcome.response
    ensures outcome.Failed? ==> c.result.error == outcome.message
  {
    var request := MakeRequest(store, RouteVerb(a), RouteUrl(path, a), RoutePayload(a));
    match outcome
    case Delivered(response) => Call(request, Ok(response))
    case Failed(message) => Call(request, Err(message))
  }

  /** One line of the `describe()` table. */
  datatype RouteDescriptor = RouteDescriptor(name: string, httpMethod: string, path: string)

  const IdPlaceholder := "{id}"

  /** The fixed introspection table; note the lowercase `post` of the `store` line. */
  function Describe(path: string): (r: seq<RouteDescriptor>)
    ensures |r| == 5
    ensures r[0].name == "index" && r[1].name == "show" && r[2].name == "store"
    ensures r[3].name == "update" && r[4].name == "destroy"
    ensures r[0].httpMethod == "GET" && r[1].httpMethod == "GET" && r[2].httpMethod == "post"
    ensures r[3].httpMethod == "PUT" && r[4].httpMethod == "DELETE"
    ensures forall i :: 0 <= i < |r| ==> StartsWith(r[i].path, BaseUrl + path)
    ensures forall i :: 0 <= i < |r| ==>
      (r[i].path == BaseUrl + path + "/" + IdPlaceholder <==> i in {1, 3, 4})
    ensures forall i :: 0 <= i < |r| && i !in {1, 3, 4} ==> r[i].path == BaseUrl + path
  {
    var collection := BaseUrl + path;
    var member := BaseUrl + path + "/" + IdPlaceholder;
    assert |member| == |collection| + 5;
    assert member[..|collection|] == collection;
    [ RouteDescriptor("index", "GET", collection),
      RouteDescriptor("show", "GET", member),
      RouteDescriptor("store", "post", collection),
      RouteDescriptor("update", "PUT", member),
      RouteDescriptor("destroy", "DELETE", member) ]
  }

  /** The line of `describe()` that documents an action. */
  function DescriptorIndex(a: Action): (i: nat)
    ensures i < 5
  {
    match a
    case Index => 0
    case Show(_) => 1
    case Store(_) => 2
    case Update(_, _) => 3
    case Destroy(_) => 4
  }

  /** Fills a documented path template with an id, as a reader of the table would. */
  function Instantiate(template: string, id: string): string {
    if EndsWith(template, "/" + IdPlaceholder)
    then template[..|template| - |IdPlaceholder|] + id
    else template
  }

  function ActionIdSegment(a: Action): string {
    if HasId(a) then IdSegment(a.id) else ""
  }

  /** A documented member path, filled with an id, is the route URL under the base address. */
  lemma InstantiateMember(path: string, id: string)
    ensures Instantiate(BaseUrl + path + "/" + IdPlaceholder, id) == BaseUrl + (path + "/" + id)
  {
    var collection := BaseUrl + path;
    var member := collection + "/" + IdPlaceholder;
    assert EndsWith(member, "/" + IdPlaceholder);
    assert member[..|member| - |IdPlaceholder|] == collection + "/";
  }

  /** A documented collection path is left alone, because a resource path ends in `s`. */
  lemma InstantiateCollection(path: string, id: string)
    requires EndsWith(path, "s")
    ensures Instantiate(BaseUrl + path, id) == BaseUrl + path
  {
    var collection := BaseUrl + path;
    assert collection[|collection| - 1] == path[|path| - 1] == 's';
  }

  /**
   * `describe()` tells the truth about the routes of any path ending in `s`, as every
   * resource path does: each action has a line with its name, its verb (up to case),
   * and a path that, filled with the id, is the base address followed by the URL the
   * route really requests.
   */
  lemma {:induction false} DescribeAgreesWithRoutesAt(path: string, a: Action)
    requires EndsWith(path, "s")
    ensures var d := Describe(path)[DescriptorIndex(a)];
      && d.name == ActionName(a)
      && Upper(d.httpMethod) == VerbName(RouteVerb(a))
      && Instantiate(d.path, ActionIdSegment(a)) == BaseUrl + RouteUrl(path, a)
  {
    var d := Describe(path)[DescriptorIndex(a)];
    UpperExamples();
    if HasId(a) {
      assert d.path == BaseUrl + path + "/" + IdPlaceholder;
      InstantiateMember(path, IdSegment(a.id));
    } else {
      assert d.path == BaseUrl + path;
      InstantiateCollection(path, ActionIdSegment(a));
    }
  }

  /** The same agreement for the path `resource(name, pluralize_name)` builds. */
  lemma DescribeAgreesWithRoutes(name: string, pluralizeName: bool, a: Action)
    ensures var path := ResourcePath(name, pluralizeName);
      var d := Describe(path)[DescriptorIndex(a)];
      && d.name == ActionName(a)
      && Upper(d.httpMethod) == VerbName(RouteVerb(a))
      && Instantiate(d.path, ActionIdSegment(a)) == BaseUrl + RouteUrl(path, a)
  {
    DescribeAgreesWithRoutesAt(ResourcePath(name, pluralizeName), a);
  }

  lemma UpperExamples()
    ensures Upper("GET") == "GET" && Upper("post") == "POST"
    ensures Upper("PUT") == "PUT" && Upper("DELETE") == "DELETE"
  {
  }

  /** All five lines of `describe()` share the one path segment the routes use. */
  lemma DescribeSharesSegment(name: string, pluralizeName: bool)
    ensures var path := ResourcePath(name, pluralizeName);
      forall i :: 0 <= i < 5 ==> StartsWith(Describe(path)[i].path, BaseUrl + path)
  {
  }
}
