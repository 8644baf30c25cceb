/** The marker scan over existing comments and the rendering of the notification template. */
module Notifier {
  import opened GoStrings

  /** The phrase whose presence in a comment means the notification was already posted. */
  const Marker := "All checks have passed!"

  /** The placeholder the template's author login replaces. */
  const Placeholder := "{user}"

  /** The scan that stops at the first comment body containing the marker. */
  function HasNotification(bodies: seq<string>): (r: bool)
    ensures r <==> exists k :: 0 <= k < |bodies| && Contains(bodies[k], Marker)
  {
    if |bodies| == 0 then false
    else if Contains(bodies[0], Marker) then true
    else HasNotification(bodies[1..])
  }

  /** The template with every `{user}` replaced by the login: the template's
      `{user}`-separated pieces joined back with the login in between. */
  function Render(template: string, login: string): (message: string)
    ensures message == Join(Split(template, Placeholder), login)
    ensures !Contains(template, Placeholder) ==> message == template
  {
    ReplaceAll(template, Placeholder, login)
  }

  /** Rendering with the placeholder itself as the login gives back the template. */
  lemma RenderWithPlaceholderIsIdentity(template: string)
    ensures Render(template, Placeholder) == template
  {
  }

  datatype Decision = Skip | Post(body: string)

  /** Skip when some comment already carries the marker, otherwise post the
      rendered template, whatever the template is. */
  function Decide(bodies: seq<string>, template: string, login: string): (d: Decision)
    ensures d.Skip? <==> exists k :: 0 <= k < |bodies| && Contains(bodies[k], Marker)
    ensures d.Post? ==> d.body == Render(template, login)
  {
    if HasNotification(bodies) then Skip else Post(Render(template, login))
  }

  /** Posting a body that carries the marker makes the next decision a skip. */
  lemma PostedMarkerSuppressesRepost(bodies: seq<string>, template: string, login: string)
    requires Decide(bodies, template, login).Post?
    requires Contains(Render(template, login), Marker)
    ensures Decide(bodies + [Render(template, login)], template, login) == Skip
  {
    var after := bodies + [Render(template, login)];
    assert after[|bodies|] == Render(template, login);
  }

  /** A posted body without the marker does not suppress the next post: the
      scan only recognises the marker, not earlier notifications as such. */
  lemma PostedBodyWithoutMarkerIsPostedAgain(bodies: seq<string>, template: string, login: string)
    requires Decide(bodies, template, login).Post?
    requires !Contains(Render(template, login), Marker)
    ensures Decide(bodies + [Render(template, login)], template, login) == Post(Render(template, login))
  {
    var after := bodies + [Render(template, login)];
    forall k | 0 <= k < |after|
      ensures !Contains(after[k], Marker)
    {
      if k < |bodies| {
        assert after[k] == bodies[k];
      }
    }
  }
}
