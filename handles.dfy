/** The handles `request` and `lazyRequest` give their callers: a view of
    the store keyed to the handle's current id, plus, in the compiled
    revision, `refresh`, and for lazy requests the `execute` trigger. Both
    re-point the view by assigning a freshly minted id. */
module Handles {
  import opened JsValues
  import opened Config
  import opened Store
  import opened Service

  /** The result of `request`. `id` is the variable the view's `map` reads. */
  class Request {
    const svc: BlestService
    const route: string
    const body: Js
    const headers: Js
    var id: string

    /** The outcome the view shows for the store's current snapshot. */
    function Current(): Outcome
      reads this, svc
    {
      View(svc.state, id)
    }

    /** `request(route, body, headers)` of the TypeScript revision: mint an
        id and enqueue it; the view starts out loading. */
    constructor (svc: BlestService, newId: string, route: string, body: Js, headers: Js)
      requires svc.Valid()
      requires newId !in svc.state
      modifies svc
      ensures this.svc == svc && this.route == route && this.body == body && this.headers == headers
      ensures id == newId
      ensures svc.Valid()
      ensures EnqueueEffect(svc, newId, route, body, headers)
      ensures Current() == Pending
    {
      this.svc := svc;
      this.route := route;
      this.body := body;
      this.headers := headers;
      id := newId;
      new;
      svc.Enqueue(newId, route, body, headers);
    }

    /** `request(route, body, options)` of the compiled revision: the
        headers are `makeBlestHeaders(options)`, and with `options.skip`
        nothing is enqueued and the view shows the default outcome. */
    constructor WithOptions(svc: BlestService, newId: string, route: string, body: Js, options: RequestOptions)
      requires svc.Valid()
      requires newId !in svc.state
      modifies svc
      ensures this.svc == svc && this.route == route && this.body == body
      ensures headers == MakeBlestHeaders(options)
      ensures id == newId
      ensures svc.Valid()
      ensures Skips(options) ==> unchanged(svc) && Current() == Idle
      ensures !Skips(options) ==> EnqueueEffect(svc, newId, route, body, headers) && Current() == Pending
    {
      this.svc := svc;
      this.route := route;
      this.body := body;
      this.headers := MakeBlestHeaders(options);
      id := newId;
      new;
      if !Skips(options) {
        svc.Enqueue(newId, route, body, headers);
      }
    }

    /** `refresh` (compiled revision): mint a new id, enqueue it with the same
        route, body and headers, and re-point the view to it. The previous
        id's entry is left as it was. */
    method Refresh(newId: string)
      requires svc.Valid()
      requires newId !in svc.state
      modifies this, svc
      ensures id == newId
      ensures svc.Valid()
      ensures EnqueueEffect(svc, newId, route, body, headers)
      ensures Current() == Pending
      ensures old(id) in old(svc.state) ==> old(id) in svc.state && svc.state[old(id)] == old(svc.state[id])
    {
      id := newId;
      svc.Enqueue(newId, route, body, headers);
    }
  }

  /** The result of `lazyRequest`: nothing is enqueued until `execute`. */
  class LazyRequest {
    const svc: BlestService
    const route: string
    const headers: Js
    var id: string

    /** The outcome the view shows for the store's current snapshot. */
    function Current(): Outcome
      reads this, svc
    {
      View(svc.state, id)
    }

    /** `lazyRequest(route, headers)` of the TypeScript revision: the id
        starts as `''`, so the view shows the default outcome. */
    constructor (svc: BlestService, route: string, headers: Js)
      ensures this.svc == svc && this.route == route && this.headers == headers
      ensures id == ""
      ensures "" !in svc.state ==> Current() == Idle
    {
      this.svc := svc;
      this.route := route;
      this.headers := headers;
      id := "";
    }

    /** `lazyRequest(route, options)` of the compiled revision: the headers
        are computed once, here, from the options. */
    constructor WithOptions(svc: BlestService, route: string, options: RequestOptions)
      ensures this.svc == svc && this.route == route
      ensures headers == MakeBlestHeaders(options)
      ensures id == ""
      ensures "" !in svc.state ==> Current() == Idle
    {
      this.svc := svc;
      this.route := route;
      this.headers := MakeBlestHeaders(options);
      id := "";
    }

    /** `execute(body)`: mint a new id, enqueue it with this handle's headers,
        and re-point the view to it. */
    method Execute(newId: string, body: Js)
      requires svc.Valid()
      requires newId !in svc.state
      modifies this, svc
      ensures id == newId
      ensures svc.Valid()
      ensures EnqueueEffect(svc, newId, route, body, headers)
      ensures Current() == Pending
    {
      id := newId;
      svc.Enqueue(newId, route, body, headers);
    }
  }
}
