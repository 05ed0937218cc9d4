/**
 * The annotation store's records, the requests the editor sends to the
 * persistence service and the effect of their responses on the store, and the
 * hit test the delete tool runs over the store in order.
 */
module Annotations {
  import opened Options
  import opened Geometry

  /** The fixed category set; it decides only the render colour. */
  datatype Label = Lymphocyte | Tumor | Stromal | Neutrophil | Eosinophil | Other

  /** A point annotation keeps its one coordinate; a polygon its ring in insertion order. */
  datatype Shape = PointShape(at: Pt) | PolygonShape(ring: seq<Pt>)

  /** One stored annotation, already parsed from the service's JSON. */
  datatype Annotation = Annotation(id: nat, category: Label, shape: Shape)

  /** What the editor asks the persistence service to do. */
  datatype Request =
    | CreatePoint(category: Label, at: Pt)
    | CreatePolygon(category: Label, ring: seq<Pt>, area: real)
    | DeleteAnnotation(id: nat)

  /**
   * How a create or delete ends: Rejected when the request throws or the
   * service answers without success; Accepted otherwise, carrying the outcome
   * of the reload that follows (None when the reload itself fails).
   */
  datatype Response = Rejected | Accepted(reload: Option<seq<Annotation>>)

  /** The store after a request's response: replaced wholesale by a successful reload, else untouched. */
  function AfterResponse(store: seq<Annotation>, response: Response): (r: seq<Annotation>)
    ensures response.Accepted? && response.reload.Some? ==> r == response.reload.value
    ensures !(response.Accepted? && response.reload.Some?) ==> r == store
  {
    match response
    case Accepted(Some(reloaded)) => reloaded
    case _ => store
  }

  /** A click within this many image pixels of a point annotation selects it for deletion. */
  const DeleteRadius: nat := 15

  /** The delete tool's test of one annotation against the clicked image pixel p. */
  function Hits(a: Annotation, p: Pt): (r: bool)
    ensures a.shape.PointShape? && p == a.shape.at ==> r
    ensures a.shape.PointShape? && r ==>
      Abs(p.x - a.shape.at.x) < DeleteRadius && Abs(p.y - a.shape.at.y) < DeleteRadius
    ensures a.shape.PolygonShape? && (forall i :: 0 <= i < |a.shape.ring| ==> a.shape.ring[i].x <= p.x) ==> !r
  {
    match a.shape
    case PointShape(q) =>
      WithinRadiusBounds(p, q, DeleteRadius);
      WithinRadius(p, q, DeleteRadius)
    case PolygonShape(ring) =>
      if forall i :: 0 <= i < |ring| ==> ring[i].x <= p.x then
        RightOfAllVerticesIsOutside(p, ring, |ring|);
        Inside(p, ring)
      else
        Inside(p, ring)
  }

  /** The index of the first annotation, in store order, that p hits. */
  function FirstHit(store: seq<Annotation>, p: Pt): (r: Option<nat>)
    ensures r.Some? ==> r.value < |store| && Hits(store[r.value], p)
    ensures r.Some? ==> forall k :: 0 <= k < r.value ==> !Hits(store[k], p)
    ensures r.None? <==> forall k :: 0 <= k < |store| ==> !Hits(store[k], p)
  {
    if |store| == 0 then None
    else if Hits(store[0], p) then Some(0)
    else match FirstHit(store[1..], p)
      case None => None
      case Some(i) => Some(i + 1)
  }

  /**
   * The scan of deleteAnnotationAt: walk the store in order and stop at the
   * first point annotation within the radius or polygon containing p.
   */
  method FindAnnotationAt(store: seq<Annotation>, p: Pt) returns (hit: Option<nat>)
    ensures hit.Some? ==> hit.value < |store| && Hits(store[hit.value], p)
    ensures hit.Some? ==> forall k :: 0 <= k < hit.value ==> !Hits(store[k], p)
    ensures hit.None? ==> forall k :: 0 <= k < |store| ==> !Hits(store[k], p)
    ensures hit == FirstHit(store, p)
  {
    var i := 0;
    while i < |store|
      invariant 0 <= i <= |store|
      invariant forall k :: 0 <= k < i ==> !Hits(store[k], p)
    {
      var ann := store[i];
      match ann.shape {
        case PointShape(q) =>
          var dx, dy := p.x - q.x, p.y - q.y;
          if dx * dx + dy * dy < DeleteRadius * DeleteRadius {
            return Some(i);
          }
        case PolygonShape(ring) =>
          var inside := IsPointInPolygon(p, ring);
          if inside {
            return Some(i);
          }
      }
      i := i + 1;
    }
    return None;
  }

  /**
   * The delete examples: a point annotation at (50, 50) is hit by a click at
   * (58, 58), about 11.3 pixels away, and not by one at (70, 70), about 28.3 away.
   */
  lemma DeleteRadiusExamples(id: nat, category: Label)
    ensures Hits(Annotation(id, category, PointShape(Pt(50, 50))), Pt(58, 58))
    ensures !Hits(Annotation(id, category, PointShape(Pt(50, 50))), Pt(70, 70))
  {
  }
}
