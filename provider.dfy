/**
 * The serverless action `sap-product-provider`: validate the request, fetch the
 * product record, compose the page template and its partials, register the helpers
 * and render the first product.
 *
 * The collaborators the action only calls are parameters, gathered in `Env`: URL
 * parsing, the backend, JSON decoding, reading a template file and Handlebars
 * rendering. The request validators are inputs in `Params`.
 */
module Provider {

  import opened JsValues
  import opened Handlebars
  import Helpers

  /*
   * Inputs, collaborators, outputs
   */

  const SOURCE_LOCATION: string := "x-content-source-location"
  const AUTHORIZATION: string := "authorization"
  const PAGE: string := "page"

  /** What the action reads from its invocation parameters. */
  datatype Params = Params(
    path: string,                       // __ow_path
    isOverlayPath: bool,                // checkOverlayPaths(params)
    missingInputs: Option<string>,      // checkMissingRequestInputs(params, [], requiredHeaders)
    headers: map<string, string>,       // __ow_headers
    apiEndpoint: Option<string>,        // API_ENDPOINT
    templates: Option<seq<string>>)     // TEMPLATES

  /** The GET request sent to the backend: base URL, the `$filter` query value and the credential. */
  datatype Request = Request(endpoint: string, filter: string, authorization: Option<string>)

  /** What `fetch` yields: a transport failure (it rejects) or a response. */
  datatype Transport = NetworkError | Reply(status: int, ok: bool, body: string)

  datatype Env = Env(
    parsesAsUrl: string -> bool,                 // `new URL(s)` does not throw
    backend: Request -> Transport,               // `fetch`
    parseJson: string -> Option<Value>,          // `res.json()`; None when it rejects
    readTemplate: string -> Option<string>,      // `fs.readFileSync(templates/<name>.html)`; None when it throws
    render: (string, map<string, string>, map<string, Helper>, Value) -> Option<string>)
                                                 // apply the template compiled from a source to a
                                                 // context; None when rendering throws

  /** `{statusCode: 200, body}` or the result of `errorResponse(statusCode, message)`. */
  datatype Response = Html(statusCode: int, body: string) | Error(statusCode: int, message: string)

  const SERVER_ERROR: Response := Error(500, "server error")

  /** `__ow_headers['x-content-source-location'] || ''`. */
  function ProductId(headers: map<string, string>): (id: string)
    ensures id == "" <==> SOURCE_LOCATION !in headers || headers[SOURCE_LOCATION] == ""
    ensures id != "" ==> id == headers[SOURCE_LOCATION]
  {
    if SOURCE_LOCATION in headers then headers[SOURCE_LOCATION] else ""
  }

  function Authorization(headers: map<string, string>): Option<string>
  {
    if AUTHORIZATION in headers then Some(headers[AUTHORIZATION]) else None
  }

  /** `params.API_ENDPOINT || ''`. */
  function Endpoint(p: Params): string
  {
    if p.apiEndpoint.Some? then p.apiEndpoint.value else ""
  }

  /** `params.TEMPLATES || []`. */
  function TemplateNames(p: Params): seq<string>
  {
    if p.templates.Some? then p.templates.value else []
  }

  /*
   * The `$filter` query value
   */

  const FILTER_PREFIX: string := "{\"products.technicalName\": \""
  const FILTER_SUFFIX: string := "\"}"

  /** The product id, inserted verbatim (no escaping) between a fixed prefix and suffix. */
  function FilterParam(productId: string): (f: string)
    ensures |f| == |FILTER_PREFIX| + |productId| + |FILTER_SUFFIX|
    ensures f[..|FILTER_PREFIX|] == FILTER_PREFIX
    ensures f[|FILTER_PREFIX|..|f| - |FILTER_SUFFIX|] == productId
    ensures f[|f| - |FILTER_SUFFIX|..] == FILTER_SUFFIX
  {
    FILTER_PREFIX + productId + FILTER_SUFFIX
  }

  /** Recovers the product id from a `$filter` value, if it has the shape FilterParam builds. */
  function ProductIdOfFilter(f: string): Option<string>
  {
    if |f| >= |FILTER_PREFIX| + |FILTER_SUFFIX|
       && f[..|FILTER_PREFIX|] == FILTER_PREFIX
       && f[|f| - |FILTER_SUFFIX|..] == FILTER_SUFFIX
    then Some(f[|FILTER_PREFIX|..|f| - |FILTER_SUFFIX|])
    else None
  }

  /** The `$filter` value determines the product id and vice versa. */
  lemma FilterParamRoundTrip(productId: string, f: string)
    ensures ProductIdOfFilter(FilterParam(productId)) == Some(productId)
    ensures ProductIdOfFilter(f) == Some(productId) ==> FilterParam(productId) == f
  {
    if ProductIdOfFilter(f) == Some(productId) {
      assert f == f[..|FILTER_PREFIX|] + f[|FILTER_PREFIX|..|f| - |FILTER_SUFFIX|] + f[|f| - |FILTER_SUFFIX|..];
    }
  }

  /*
   * fetchContent
   */

  /** The object `fetchContent` resolves to; absent fields are `None`. */
  datatype FetchResult = FetchResult(statusCode: int, error: Option<string>, content: Option<Value>)

  /** The request sent, if any, and the result, or `None` if `fetchContent` rejected. */
  datatype Fetch = Fetch(sent: Option<Request>, result: Option<FetchResult>)

  /**
   * What `fetchContent` does: an unparsable endpoint throws before anything is sent;
   * otherwise one request goes out carrying the filter and the credential, a transport
   * failure or an undecodable success body rejects, a non-ok response records its text
   * as `error` and an ok one its decoded body as `content`, both with the status.
   */
  function FetchOf(p: Params, env: Env): (f: Fetch)
    ensures f.sent.None? <==> !env.parsesAsUrl(Endpoint(p))
    ensures f.sent.Some? ==> f.sent.value == Request(Endpoint(p), FilterParam(ProductId(p.headers)), Authorization(p.headers))
    ensures f.result.Some? ==>
      && f.sent.Some?
      && env.backend(f.sent.value).Reply?
      && f.result.value.statusCode == env.backend(f.sent.value).status
      && (f.result.value.error.Some? <==> !env.backend(f.sent.value).ok)
      && (f.result.value.content.Some? <==> env.backend(f.sent.value).ok)
      && (f.result.value.error.Some? ==> f.result.value.error.value == env.backend(f.sent.value).body)
      && (f.result.value.content.Some? ==> env.parseJson(env.backend(f.sent.value).body) == f.result.value.content)
    ensures f.result.None? <==>
      || f.sent.None?
      || env.backend(f.sent.value).NetworkError?
      || (env.backend(f.sent.value).ok && env.parseJson(env.backend(f.sent.value).body).None?)
  {
    var endpoint := Endpoint(p);
    if !env.parsesAsUrl(endpoint) then Fetch(None, None)
    else
      var request := Request(endpoint, FilterParam(ProductId(p.headers)), Authorization(p.headers));
      match env.backend(request)
      case NetworkError => Fetch(Some(request), None)
      case Reply(status, ok, body) =>
        if !ok then Fetch(Some(request), Some(FetchResult(status, Some(body), None)))
        else match env.parseJson(body)
          case None => Fetch(Some(request), None)
          case Some(json) => Fetch(Some(request), Some(FetchResult(status, None, Some(json))))
  }

  /** `fetchContent(params)`: builds the result field by field. */
  method FetchContent(p: Params, env: Env) returns (sent: Option<Request>, result: Option<FetchResult>)
    ensures Fetch(sent, result) == FetchOf(p, env)
  {
    sent, result := None, None;
    var endpoint := Endpoint(p);
    if !env.parsesAsUrl(endpoint) {
      return;
    }
    var productId := ProductId(p.headers);
    var request := Request(endpoint, FilterParam(productId), Authorization(p.headers));
    sent := Some(request);
    var res := env.backend(request);
    if res.NetworkError? {
      return;
    }
    var r := FetchResult(res.status, None, None);
    if !res.ok {
      r := r.(error := Some(res.body));
    } else {
      var json := env.parseJson(res.body);
      if json.None? {
        return;
      }
      r := r.(content := json);
    }
    result := Some(r);
  }

  /*
   * Template composition
   */

  /** The module-level `template`: initially the empty string, which cannot be called. */
  datatype Slot = Blank | Compiled(source: string)

  /** The main-template slot and the Handlebars partial table. */
  datatype Namespace = Namespace(main: Slot, partials: map<string, string>)

  /** The namespace after composition, and the first name whose file could not be read. */
  datatype Composition = Composition(ns: Namespace, missing: Option<string>)

  /**
   * One turn of the loop: empty content is skipped; `page` is compiled into the slot,
   * and every non-empty template, `page` included, is registered as a partial.
   */
  function Visit(ns: Namespace, name: string, content: string): Namespace
  {
    if content == "" then ns
    else
      var main := if name == PAGE then Compiled(content) else ns.main;
      Namespace(main, ns.partials[name := content])
  }

  /** The loop over `names`, in order, stopping at the first file that cannot be read. */
  function Compose(ns: Namespace, names: seq<string>, read: string -> Option<string>): Composition
    decreases |names|
  {
    if names == [] then Composition(ns, None)
    else
      var c := Compose(ns, names[..|names| - 1], read);
      var name := names[|names| - 1];
      if c.missing.Some? then c
      else match read(name)
        case None => Composition(c.ns, Some(name))
        case Some(content) => Composition(Visit(c.ns, name, content), None)
  }

  predicate AllReadable(names: seq<string>, read: string -> Option<string>)
  {
    forall name :: name in names ==> read(name).Some?
  }

  /** The templates the loop registers: each listed name with non-empty content. */
  function Loaded(names: seq<string>, read: string -> Option<string>): map<string, string>
    requires AllReadable(names, read)
  {
    map name | name in names && read(name).value != "" :: read(name).value
  }

  /** Once a read has failed, later names change nothing. */
  lemma {:induction false} ComposeStaysFailed(ns: Namespace, names: seq<string>, read: string -> Option<string>, k: nat)
    requires k <= |names| && Compose(ns, names[..k], read).missing.Some?
    ensures Compose(ns, names, read) == Compose(ns, names[..k], read)
    decreases |names|
  {
    if k < |names| {
      var init := names[..|names| - 1];
      assert init[..k] == names[..k];
      ComposeStaysFailed(ns, init, read, k);
    } else {
      assert names[..k] == names;
    }
  }

  /** Composition fails exactly when some listed file cannot be read, and names such a file. */
  lemma {:induction false} ComposeFailsIffUnreadable(ns: Namespace, names: seq<string>, read: string -> Option<string>)
    ensures Compose(ns, names, read).missing.None? <==> AllReadable(names, read)
    ensures Compose(ns, names, read).missing.Some? ==>
      Compose(ns, names, read).missing.value in names && read(Compose(ns, names, read).missing.value).None?
    decreases |names|
  {
    if names != [] {
      var init, last := names[..|names| - 1], names[|names| - 1];
      assert names == init + [last];
      ComposeFailsIffUnreadable(ns, init, read);
      assert AllReadable(names, read) <==> AllReadable(init, read) && read(last).Some?;
    }
  }

  /**
   * When every file can be read, the partial table gains exactly the non-empty
   * templates, `page` included, each under its own name; other entries are kept.
   */
  lemma {:induction false} ComposeRegistersPartials(ns: Namespace, names: seq<string>, read: string -> Option<string>)
    requires AllReadable(names, read)
    ensures Compose(ns, names, read).missing.None?
    ensures Compose(ns, names, read).ns.partials == ns.partials + Loaded(names, read)
    decreases |names|
  {
    if names != [] {
      var init, last := names[..|names| - 1], names[|names| - 1];
      assert names == init + [last];
      assert forall name :: name in names <==> name in init || name == last;
      ComposeRegistersPartials(ns, init, read);
      var content := read(last).value;
      if content == "" {
        assert Loaded(names, read) == Loaded(init, read);
      } else {
        assert Loaded(names, read) == Loaded(init, read)[last := content];
      }
    }
  }

  /**
   * When every file can be read, the slot holds the compiled `page` if a non-empty
   * `page` is listed, and otherwise keeps whatever it held before.
   */
  lemma {:induction false} ComposeSetsMain(ns: Namespace, names: seq<string>, read: string -> Option<string>)
    requires AllReadable(names, read)
    ensures Compose(ns, names, read).ns.main
      == if PAGE in Loaded(names, read) then Compiled(Loaded(names, read)[PAGE]) else ns.main
    decreases |names|
  {
    if names != [] {
      var init, last := names[..|names| - 1], names[|names| - 1];
      assert names == init + [last];
      assert forall name :: name in names <==> name in init || name == last;
      ComposeSetsMain(ns, init, read);
      ComposeRegistersPartials(ns, init, read);
    }
  }

  /** A non-empty `page` is among the listed names. */
  predicate PageListed(names: seq<string>, read: string -> Option<string>)
  {
    PAGE in names && read(PAGE).Some? && read(PAGE).value != ""
  }

  /**
   * Without a non-empty `page` among the names, the slot keeps its value, whether or
   * not a later file turns out to be unreadable.
   */
  lemma {:induction false} ComposeKeepsMainWithoutPage(ns: Namespace, names: seq<string>, read: string -> Option<string>)
    requires !PageListed(names, read)
    ensures Compose(ns, names, read).ns.main == ns.main
    decreases |names|
  {
    if names != [] {
      var init := names[..|names| - 1];
      assert forall name :: name in init ==> name in names;
      ComposeKeepsMainWithoutPage(ns, init, read);
    }
  }

  /**
   * A non-empty `page` among the names read before the first unreadable one is what the
   * slot holds after composition, whatever follows.
   */
  lemma {:induction false} ComposeInstallsPage(ns: Namespace, names: seq<string>, read: string -> Option<string>, m: nat)
    requires m <= |names| && AllReadable(names[..m], read) && PageListed(names[..m], read)
    ensures Compose(ns, names, read).ns.main == Compiled(read(PAGE).value)
    decreases |names|
  {
    if |names| == m {
      assert names[..m] == names;
      ComposeSetsMain(ns, names, read);
    } else {
      var init := names[..|names| - 1];
      assert init[..m] == names[..m];
      ComposeInstallsPage(ns, init, read, m);
    }
  }

  /** The composed namespace depends on which names are listed, not on their order or repetition. */
  lemma ComposeOrderIrrelevant(ns: Namespace, names1: seq<string>, names2: seq<string>, read: string -> Option<string>)
    requires AllReadable(names1, read)
    requires forall name :: name in names1 <==> name in names2
    ensures Compose(ns, names1, read) == Compose(ns, names2, read)
  {
    assert Loaded(names1, read) == Loaded(names2, read);
    ComposeRegistersPartials(ns, names1, read);
    ComposeRegistersPartials(ns, names2, read);
    ComposeSetsMain(ns, names1, read);
    ComposeSetsMain(ns, names2, read);
  }

  /**
   * A file that cannot be read aborts the loop: the unreadable name reported is the
   * first one, and what the earlier names registered stays registered.
   */
  lemma ComposeStopsAtFirstUnreadable(ns: Namespace, names: seq<string>, read: string -> Option<string>, k: nat)
    requires k < |names| && read(names[k]).None? && AllReadable(names[..k], read)
    ensures Compose(ns, names, read) == Composition(Compose(ns, names[..k], read).ns, Some(names[k]))
  {
    assert names[..k + 1][..k] == names[..k];
    ComposeRegistersPartials(ns, names[..k], read);
    ComposeStaysFailed(ns, names, read, k + 1);
  }

  /*
   * The whole invocation, as a function of the state left by earlier invocations
   */

  /** The process-wide state that outlives an invocation. */
  datatype State = State(main: Slot, partials: map<string, string>, helpers: map<string, Helper>)

  /** The response, the backend request sent (if any) and the state afterwards. */
  datatype Invocation = Invocation(response: Response, request: Option<Request>, after: State)

  /** `content.products[0]`; `None` when the property reads throw. */
  function FirstProduct(content: Value): (r: Option<Value>)
    ensures r.Some? <==>
      content.Obj? && "products" in content.fields
      && !content.fields["products"].Undefined? && !content.fields["products"].Null?
    ensures r.Some? && content.fields["products"].Arr? ==>
      r.value == if content.fields["products"].items != [] then content.fields["products"].items[0] else Undefined
  {
    match GetProducts(content)
    case None => None
    case Some(products) => GetFirst(products)
  }

  /** The three request checks pass, in the order the action makes them. */
  predicate ChecksPass(p: Params)
  {
    p.isOverlayPath && !Truthy(p.missingInputs) && ProductId(p.headers) != ""
  }

  /** The invocation gets past the fetch and into template composition. */
  predicate ReachesComposition(p: Params, env: Env)
  {
    && ChecksPass(p)
    && FetchOf(p, env).result.Some?
    && !Truthy(FetchOf(p, env).result.value.error)
  }

  function Invoke(st: State, p: Params, env: Env): Invocation
  {
    if !p.isOverlayPath then
      Invocation(Error(404, p.path + " is not an overlay path"), None, st)
    else if Truthy(p.missingInputs) then
      Invocation(Error(400, p.missingInputs.value), None, st)
    else if ProductId(p.headers) == "" then
      Invocation(Error(404, "Missing product identifier"), None, st)
    else
      var fetch := FetchOf(p, env);
      if fetch.result.None? then Invocation(SERVER_ERROR, fetch.sent, st)
      else
        var r := fetch.result.value;
        if Truthy(r.error) then Invocation(Error(r.statusCode, r.error.value), fetch.sent, st)
        else
          var c := Compose(Namespace(st.main, st.partials), TemplateNames(p), env.readTemplate);
          var composed := State(c.ns.main, c.ns.partials, st.helpers);
          if c.missing.Some? then Invocation(SERVER_ERROR, fetch.sent, composed)
          else
            var ready := composed.(helpers := Helpers.Registered(composed.helpers));
            var content := if r.content.Some? then r.content.value else Undefined;
            match FirstProduct(content)
            case None => Invocation(SERVER_ERROR, fetch.sent, ready)
            case Some(product) =>
              match ready.main
              case Blank => Invocation(SERVER_ERROR, fetch.sent, ready)
              case Compiled(source) =>
                match env.render(source, ready.partials, ready.helpers, product)
                case None => Invocation(SERVER_ERROR, fetch.sent, ready)
                case Some(html) => Invocation(Html(200, html), fetch.sent, ready)
  }

  /*
   * Properties of an invocation
   */

  /**
   * The checks run in a fixed order, each failure answers without calling the backend
   * and without touching the state, and a request is sent only when all three pass.
   */
  lemma InvokeChecksFirst(st: State, p: Params, env: Env)
    ensures var inv := Invoke(st, p, env);
      && (!p.isOverlayPath ==> inv.response == Error(404, p.path + " is not an overlay path"))
      && (p.isOverlayPath && Truthy(p.missingInputs) ==> inv.response == Error(400, p.missingInputs.value))
      && (p.isOverlayPath && !Truthy(p.missingInputs) && ProductId(p.headers) == "" ==>
            inv.response == Error(404, "Missing product identifier"))
      && (!ChecksPass(p) ==> inv.request.None? && inv.after == st)
      && (inv.request.Some? ==> ChecksPass(p) && inv.request.value.filter == FilterParam(ProductId(p.headers)))
  {
  }

  /** The state changes only when the invocation reaches template composition. */
  lemma InvokeStateUntouchedBeforeComposition(st: State, p: Params, env: Env)
    requires !ReachesComposition(p, env)
    ensures Invoke(st, p, env).after == st
  {
  }

  /**
   * A non-ok backend response with a non-empty body is answered with the backend's own
   * status and text; with an empty body (falsy) the action carries on and fails with 500.
   */
  lemma InvokeBackendError(st: State, p: Params, env: Env)
    requires ChecksPass(p) && env.parsesAsUrl(Endpoint(p))
    requires var reply := env.backend(FetchOf(p, env).sent.value); reply.Reply? && !reply.ok
    ensures var reply := env.backend(FetchOf(p, env).sent.value);
      && (reply.body != "" ==> Invoke(st, p, env).response == Error(reply.status, reply.body))
      && (reply.body != "" ==> Invoke(st, p, env).after == st)
      && (reply.body == "" ==> Invoke(st, p, env).response == SERVER_ERROR)
  {
  }

  /**
   * A 200 response carries exactly what the main template renders for
   * `content.products[0]`, after composition and helper registration.
   */
  lemma InvokeSuccess(st: State, p: Params, env: Env)
    ensures var inv := Invoke(st, p, env);
      inv.response.Html? ==>
        && inv.response.statusCode == 200
        && ReachesComposition(p, env)
        && var reply := env.backend(inv.request.value);
        && reply.Reply? && reply.ok
        && var content := env.parseJson(reply.body).value;
        && FirstProduct(content).Some?
        && inv.after.main.Compiled?
        && inv.after.helpers == Helpers.Registered(st.helpers)
        && env.render(inv.after.main.source, inv.after.partials, inv.after.helpers, FirstProduct(content).value)
             == Some(inv.response.body)
  {
  }

  /** A rejected `fetchContent` answers 500 and leaves the state as it was. */
  lemma InvokeFetchRejected(st: State, p: Params, env: Env)
    requires ChecksPass(p) && FetchOf(p, env).result.None?
    ensures Invoke(st, p, env) == Invocation(SERVER_ERROR, FetchOf(p, env).sent, st)
  {
  }

  /**
   * Past the fetch, the answer is 200 with the rendered page exactly when composition
   * succeeds, the slot holds a compiled template, `content.products[0]` can be read and
   * rendering succeeds; every other outcome is 500 `server error`.
   */
  lemma InvokeAfterFetch(st: State, p: Params, env: Env)
    requires ReachesComposition(p, env)
    ensures var r := FetchOf(p, env).result.value;
      var content := if r.content.Some? then r.content.value else Undefined;
      var c := Compose(Namespace(st.main, st.partials), TemplateNames(p), env.readTemplate);
      var helpers := Helpers.Registered(st.helpers);
      && (c.missing.None? && c.ns.main.Compiled? && FirstProduct(content).Some?
          && env.render(c.ns.main.source, c.ns.partials, helpers, FirstProduct(content).value).Some?
          ==> Invoke(st, p, env).response
                == Html(200, env.render(c.ns.main.source, c.ns.partials, helpers, FirstProduct(content).value).value))
      && (!Invoke(st, p, env).response.Html? ==> Invoke(st, p, env).response == SERVER_ERROR)
  {
  }

  /** A composition that meets an unreadable template answers 500 and keeps what it registered so far. */
  lemma InvokeUnreadableTemplate(st: State, p: Params, env: Env)
    requires ReachesComposition(p, env) && !AllReadable(TemplateNames(p), env.readTemplate)
    ensures Invoke(st, p, env).response == SERVER_ERROR
    ensures var c := Compose(Namespace(st.main, st.partials), TemplateNames(p), env.readTemplate);
      Invoke(st, p, env).after == State(c.ns.main, c.ns.partials, st.helpers)
  {
    ComposeFailsIffUnreadable(Namespace(st.main, st.partials), TemplateNames(p), env.readTemplate);
  }

  /** With no non-empty `page` listed, the slot keeps the value an earlier invocation left in it. */
  lemma InvokeKeepsMainWithoutPage(st: State, p: Params, env: Env)
    requires !PageListed(TemplateNames(p), env.readTemplate)
    ensures Invoke(st, p, env).after.main == st.main
  {
    ComposeKeepsMainWithoutPage(Namespace(st.main, st.partials), TemplateNames(p), env.readTemplate);
  }

  /**
   * Once the invocation reaches composition, a non-empty `page` read before the first
   * unreadable file is what the slot holds afterwards, even if a later file cannot be read.
   */
  lemma InvokeInstallsPage(st: State, p: Params, env: Env, m: nat)
    requires ReachesComposition(p, env)
    requires m <= |TemplateNames(p)|
    requires AllReadable(TemplateNames(p)[..m], env.readTemplate)
    requires PageListed(TemplateNames(p)[..m], env.readTemplate)
    ensures Invoke(st, p, env).after.main == Compiled(env.readTemplate(PAGE).value)
  {
    ComposeInstallsPage(Namespace(st.main, st.partials), TemplateNames(p), env.readTemplate, m);
  }

  /**
   * The slot outlives an invocation: a later invocation that lists no non-empty `page`
   * renders with the page compiled by an earlier one.
   */
  lemma LaterInvocationReusesPage(st: State, p1: Params, env1: Env, m: nat, p2: Params, env2: Env)
    requires ReachesComposition(p1, env1)
    requires m <= |TemplateNames(p1)|
    requires AllReadable(TemplateNames(p1)[..m], env1.readTemplate)
    requires PageListed(TemplateNames(p1)[..m], env1.readTemplate)
    requires !PageListed(TemplateNames(p2), env2.readTemplate)
    ensures Invoke(Invoke(st, p1, env1).after, p2, env2).after.main == Compiled(env1.readTemplate(PAGE).value)
  {
    InvokeInstallsPage(st, p1, env1, m);
    InvokeKeepsMainWithoutPage(Invoke(st, p1, env1).after, p2, env2);
  }

  /**
   * While the slot still holds the initial empty string and no non-empty `page` is
   * listed, no invocation produces HTML: calling the string throws, which maps to 500.
   */
  lemma InvokeWithoutPageNeverRenders(st: State, p: Params, env: Env)
    requires st.main == Blank
    requires !PageListed(TemplateNames(p), env.readTemplate)
    ensures !Invoke(st, p, env).response.Html?
    ensures ReachesComposition(p, env) ==> Invoke(st, p, env).response == SERVER_ERROR
  {
    ComposeKeepsMainWithoutPage(Namespace(st.main, st.partials), TemplateNames(p), env.readTemplate);
  }

  /**
   * An empty `products` array is not an error: once composition succeeds with a compiled
   * slot (this invocation's `page` or an earlier one's), the template is rendered with
   * `undefined`.
   */
  lemma InvokeEmptyProducts(st: State, p: Params, env: Env, ref: nat, fields: map<string, Value>, productsRef: nat)
    requires ReachesComposition(p, env)
    requires FetchOf(p, env).result.value.content == Some(Obj(ref, fields))
    requires "products" in fields && fields["products"] == Arr(productsRef, [])
    requires var c := Compose(Namespace(st.main, st.partials), TemplateNames(p), env.readTemplate);
      c.missing.None? && c.ns.main.Compiled?
    ensures var after := Invoke(st, p, env).after;
      && after.main.Compiled?
      && (PageListed(TemplateNames(p), env.readTemplate) ==> after.main == Compiled(env.readTemplate(PAGE).value))
      && Invoke(st, p, env).response ==
           match env.render(after.main.source, after.partials, after.helpers, Undefined)
           case None => SERVER_ERROR
           case Some(html) => Html(200, html)
  {
    var names := TemplateNames(p);
    assert FirstProduct(Obj(ref, fields)) == Some(Undefined);
    if PageListed(names, env.readTemplate) {
      ComposeFailsIffUnreadable(Namespace(st.main, st.partials), names, env.readTemplate);
      assert names[..|names|] == names;
      InvokeInstallsPage(st, p, env, |names|);
    }
  }

  /*
   * The action, with the module-level `template` slot and the Handlebars globals
   */

  class Action {
    var template: Slot
    const engine: Engine

    /** Loading the module: `let template = ''`. */
    constructor (engine: Engine)
      ensures this.engine == engine && template == Blank
    {
      this.engine := engine;
      template := Blank;
    }

    function Current(): State
      reads this, engine
    {
      State(template, engine.partials, engine.helpers)
    }

    /**
     * The `forEach` over the template names: reads each file, skips empty content,
     * compiles `page` into the slot and registers every non-empty template as a
     * partial. A file that cannot be read throws out of the loop.
     */
    method ComposeTemplates(names: seq<string>, read: string -> Option<string>) returns (missing: Option<string>)
      modifies this, engine
      ensures Composition(Namespace(template, engine.partials), missing)
        == Compose(old(Namespace(template, engine.partials)), names, read)
      ensures engine.helpers == old(engine.helpers)
    {
      ghost var ns0 := Namespace(template, engine.partials);
      missing := None;
      for i := 0 to |names|
        invariant Compose(ns0, names[..i], read) == Composition(Namespace(template, engine.partials), None)
        invariant engine.helpers == old(engine.helpers)
      {
        var name := names[i];
        assert names[..i + 1][..i] == names[..i];
        var templateContent := read(name);
        if templateContent.None? {
          missing := Some(name);
          ComposeStaysFailed(ns0, names, read, i + 1);
          return;
        }
        if templateContent.value != "" {
          if name == PAGE {
            template := Compiled(templateContent.value);
          }
          engine.RegisterPartial(name, templateContent.value);
        }
      }
      assert names[..|names|] == names;
    }

    /** `main(params)`: one invocation, answered and leaving the process state as Invoke says. */
    method Serve(p: Params, env: Env) returns (response: Response, ghost sent: Option<Request>)
      modifies this, engine
      ensures var inv := Invoke(old(Current()), p, env);
        response == inv.response && sent == inv.request && Current() == inv.after
    {
      sent := None;
      if !p.isOverlayPath {
        return Error(404, p.path + " is not an overlay path"), None;
      }
      if Truthy(p.missingInputs) {
        return Error(400, p.missingInputs.value), None;
      }
      var productId := ProductId(p.headers);
      if productId == "" {
        return Error(404, "Missing product identifier"), None;
      }

      var result;
      sent, result := FetchContent(p, env);
      if result.None? {
        return SERVER_ERROR, sent;
      }
      var r := result.value;
      if Truthy(r.error) {
        return Error(r.statusCode, r.error.value), sent;
      }

      var missing := ComposeTemplates(TemplateNames(p), env.readTemplate);
      if missing.Some? {
        return SERVER_ERROR, sent;
      }
      Helpers.RegisterHelpers(engine);

      var content := if r.content.Some? then r.content.value else Undefined;
      var product := FirstProduct(content);
      if product.None? || template.Blank? {
        return SERVER_ERROR, sent;
      }
      var html := env.render(template.source, engine.partials, engine.helpers, product.value);
      if html.None? {
        return SERVER_ERROR, sent;
      }
      response := Html(200, html.value);
    }
  }
}
