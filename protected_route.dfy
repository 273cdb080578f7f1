/** `ProtectedRoute`: a route that renders its component only for a signed-in doctor. */
module ProtectedRoute {
  import opened Wrappers
  import Js

  const LoginPath: string := "/doctor-login"

  /** What the route's `render` callback returns. */
  datatype Outcome<C, P> = RedirectTo(target: string) | RenderComponent(component: C, props: P)

  /** The `render` callback, given the `jwt_token` cookie and the stored `doctorDetails`. */
  function Render<C, P>(component: C, props: P, token: Option<string>, doctorDetails: Option<string>): (r: Outcome<C, P>)
    ensures !Js.Truthy(token) ==> r == RedirectTo(LoginPath)
    ensures !Js.Truthy(doctorDetails) ==> r == RedirectTo(LoginPath)
    ensures r.RenderComponent? <==> Js.Truthy(token) && Js.Truthy(doctorDetails)
    ensures r.RenderComponent? ==> r.component == component && r.props == props
    ensures r.RedirectTo? ==> r.target == LoginPath
  {
    if token.None? || token.value == "" || doctorDetails.None? || doctorDetails.value == "" then
      RedirectTo(LoginPath)
    else
      RenderComponent(component, props)
  }

  /** The redirect decision depends on the two stored values only, never on the route props. */
  lemma DecisionIgnoresProps<C, P>(component: C, p1: P, p2: P, token: Option<string>, doctorDetails: Option<string>)
    ensures Render(component, p1, token, doctorDetails).RenderComponent? ==
            Render(component, p2, token, doctorDetails).RenderComponent?
  {
  }
}
