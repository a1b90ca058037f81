/** The application's routes and the client-side router that pages push
    them onto (`router.push` of next/navigation). */
module Navigation {

  datatype Route = Start | Login | Pin | Vault

  /** The path each route stands for. */
  function Path(r: Route): string {
    match r
    case Start => "/"
    case Login => "/auth/login"
    case Pin => "/auth/pin"
    case Vault => "/vault"
  }

  /** The router, seen as the sequence of routes pushed onto it. */
  class Router {
    var history: seq<Route>

    constructor ()
      ensures history == []
    {
      history := [];
    }

    method Push(r: Route)
      modifies this
      ensures history == old(history) + [r]
    {
      history := history + [r];
    }
  }
}
