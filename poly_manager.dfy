/** PolygonCreationManager (src/core/geom/data/poly_create.py): the controller that
    turns clicks into steps of a polygon creation session on the active geometry data
    object. It keeps the merged vertices picked so far (`_picked_verts`, `None` for a
    grid point), the active object and the started/ended flags the creation states
    use. What lies under the mouse (the pixel of the picking buffer, the grid point,
    the registry of vertices by picking colour) is passed in by the caller. */
module PolyManager {

  import opened Wrappers
  import opened Seqs
  import opened Vectors
  import opened PolySession
  import opened PolyCommit
  import opened PolyCreate

  /** A vertex registered under a picking colour: its object, the merged vertex it
      belongs to (`get_merged_vertex()`), whether that lies on the mesh border, and
      its position in the coordinates of the active object. */
  datatype Vertex = Vertex(obj: GeomDataObject, merged: nat, border: bool, pos: Vec3)

  /** A pixel of the picking buffer, as red, green and blue bytes. */
  datatype Pixel = Pixel(r: bv8, g: bv8, b: bv8)

  /** `r << 16 | g << 8 | b`: the colour id a pixel names. */
  function ColorId(p: Pixel): bv32
  {
    ((p.r as bv32) << 16) | ((p.g as bv32) << 8) | (p.b as bv32)
  }

  /** The pixel showing the colour id `id`. */
  function PixelOf(id: bv32): Pixel
  {
    Pixel(((id >> 16) & 0xFF) as bv8, ((id >> 8) & 0xFF) as bv8, (id & 0xFF) as bv8)
  }

  lemma PixelRoundTrip(p: Pixel)
    ensures PixelOf(ColorId(p)) == p
  {
  }

  lemma ColorIdRoundTrip(id: bv32)
    requires id < 0x100_0000
    ensures ColorId(PixelOf(id)) == id
  {
  }

  /** `__get_vertex`: the vertex registered under the colour of the pixel, if any;
      the temporary vertices of the new polygon are not registered. */
  function GetVertex(p: Pixel, verts: map<bv32, Vertex>): (r: Option<Vertex>)
    ensures r.Some? <==> ColorId(p) in verts
    ensures r.Some? ==> r.value == verts[ColorId(p)]
  {
    var id := ColorId(p);
    if id in verts then Some(verts[id]) else None
  }

  /** The pixel showing a 24-bit colour id finds exactly the vertex registered under
      that id, and nothing when no vertex is registered under it. */
  lemma GetVertexByColour(id: bv32, verts: map<bv32, Vertex>)
    requires id < 0x100_0000
    ensures GetVertex(PixelOf(id), verts) == if id in verts then Some(verts[id]) else None
  {
    ColorIdRoundTrip(id);
  }

  /** A registered vertex names a merged vertex of its object, and that object is
      well formed. */
  ghost predicate VertexOK(v: Vertex)
    reads v.obj
  {
    v.obj.Valid() && v.obj.PickOK(OwnVertex(v.merged, v.border))
  }

  /** The object a session started by a click is created on: the object of the vertex
      under the mouse, or the first selected object for a grid point. */
  function Target(underMouse: bool, p: Pixel, verts: map<bv32, Vertex>, objs: seq<GeomDataObject>): Option<GeomDataObject>
  {
    if underMouse then
      var found := GetVertex(p, verts);
      if found.Some? then Some(found.value.obj) else None
    else if objs == [] then None
    else Some(objs[0])
  }

  function Targets(underMouse: bool, p: Pixel, verts: map<bv32, Vertex>, objs: seq<GeomDataObject>): set<GeomDataObject>
  {
    var t := Target(underMouse, p, verts, objs);
    if t.Some? then {t.value} else {}
  }

  /** What a click picks for the active object `active`: a merged vertex of its own,
      a vertex of another object (only its position counts), or a grid point. */
  function PickOf(v: Vertex, active: GeomDataObject): (pick: Pick)
    ensures !pick.GridPoint?
    ensures pick.OwnVertex? <==> v.obj == active
    ensures pick.OwnVertex? ==> pick.merged == v.merged && pick.border == v.border
    ensures pick.ForeignVertex? ==> pick.pos == v.pos
  {
    if v.obj == active then OwnVertex(v.merged, v.border) else ForeignVertex(v.pos)
  }

  /** The position `add_new_poly_vertex` takes for a picked vertex: the position of
      the merged vertex when it belongs to the active object, otherwise the vertex's
      own position. */
  lemma PickPosOf(v: Vertex, active: GeomDataObject)
    requires v.obj == active ==> VertexOK(v)
    ensures active.PickOK(PickOf(v, active))
    ensures active.PickPos(PickOf(v, active)) ==
      if v.obj == active then active.mesh.rowPos[v.merged] else v.pos
  {
  }

  /** The key by which an already picked vertex is recognised. */
  function KeyOf(v: Vertex): Option<(GeomDataObject, nat)>
  {
    Some((v.obj, v.merged))
  }

  class PolyCreationManager {

    /** `_picked_verts`: per committed position the merged vertex picked for it. */
    var picked: seq<Option<(GeomDataObject, nat)>>
    /** `_active_geom_data_obj` */
    var active: GeomDataObject?
    /** `_geom_data_objs`: the selected objects a session may start on. */
    var objs: seq<GeomDataObject>
    var started: bool
    var ended: bool

    /** A session is in progress exactly when there is an active object; it then
        has one committed position per picked entry. */
    ghost predicate Valid()
      reads this, active
    {
      && (active == null <==> picked == [])
      && (active != null ==> active.Valid() && active.creating && |picked| == |active.tmp.vertPos|)
    }

    constructor ()
      ensures Valid() && active == null && objs == [] && !started && !ended
    {
      picked, active, objs := [], null, [];
      started, ended := false, false;
    }

    /** `__enter_creation_mode`: right after a session ended only the flag is
        reset; otherwise the selected objects are taken on. */
    method EnterCreationMode(selected: seq<GeomDataObject>)
      requires Valid()
      modifies this
      ensures Valid() && picked == old(picked) && active == old(active) && started == old(started)
      ensures !ended
      ensures objs == if old(ended) then old(objs) else selected
    {
      if ended {
        ended := false;
      } else {
        objs := selected;
      }
    }

    /** `__exit_creation_mode`: right after a session started only the flag is
        reset; otherwise the objects are let go. */
    method ExitCreationMode()
      requires Valid()
      modifies this
      ensures Valid() && picked == old(picked) && active == old(active) && ended == old(ended)
      ensures !started
      ensures objs == if old(started) then old(objs) else []
    {
      if started {
        started := false;
      } else {
        objs := [];
      }
    }

    /** `__init_poly_creation`: start a session on the object of the vertex under
        the mouse, or on the first selected object for a grid point, and commit the
        picked position. Nothing happens when no vertex or no grid point is found. */
    method InitPolyCreation(underMouse: bool, p: Pixel, grid: Option<Vec3>, verts: map<bv32, Vertex>)
      requires Valid() && active == null
      requires underMouse && GetVertex(p, verts).Some? ==> VertexOK(GetVertex(p, verts).value)
      requires !underMouse && grid.Some? ==> |objs| > 0 && objs[0].Valid()
      modifies this, Targets(underMouse, p, verts, objs)
      ensures Valid() && objs == old(objs)
      ensures var found := GetVertex(p, verts);
        if (underMouse && found.None?) || (!underMouse && grid.None?) then
          picked == old(picked) && active == null && started == old(started) && ended == old(ended)
        else
          && active != null && Some(active as GeomDataObject) == old(Target(underMouse, p, verts, objs))
          && picked == [if underMouse then KeyOf(found.value) else None]
          && started && !ended
      ensures var found := GetVertex(p, verts);
        underMouse && found.Some? ==>
          var pick := OwnVertex(found.value.merged, found.value.border);
          active.tmp == Added(Fresh(), old(found.value.obj.PickPos(pick)), false, PickOwner(pick))
          && active.mesh == old(found.value.obj.mesh)
      ensures !underMouse && grid.Some? ==>
        active.tmp == Added(Fresh(), grid.value, true, None) && active.mesh == old(objs[0].mesh)
    {
      if underMouse {
        var found := GetVertex(p, verts);
        if found.None? {
          return;
        }
        StartOn(found.value.obj, OwnVertex(found.value.merged, found.value.border), KeyOf(found.value));
      } else {
        if grid.None? {
          return;
        }
        StartOn(objs[0], GridPoint(grid.value), None);
      }
    }

    /** The session started on `obj` with the first pick `pick`. */
    method StartOn(obj: GeomDataObject, pick: Pick, key: Option<(GeomDataObject, nat)>)
      requires Valid() && active == null && obj.Valid() && obj.PickOK(pick)
      modifies this, obj
      ensures Valid() && active == obj && picked == [key] && started && !ended && objs == old(objs)
      ensures obj.tmp == Added(Fresh(), old(obj.PickPos(pick)), pick.GridPoint?, PickOwner(pick))
      ensures obj.mesh == old(obj.mesh)
    {
      obj.InitPolyCreation();
      obj.AddNewPolyVertex(pick);
      picked := picked + [key];
      active := obj;
      started, ended := true, false;
    }

    /** `__add_poly_vertex`: clicking a temporary vertex of the new polygon or a
        vertex picked before finalizes the polygon; otherwise the picked vertex or
        grid point is committed. */
    method AddPolyVertex(underMouse: bool, p: Pixel, grid: Option<Vec3>, verts: map<bv32, Vertex>)
      requires Valid() && active != null
      requires underMouse && GetVertex(p, verts).Some? && GetVertex(p, verts).value.obj == active ==>
        VertexOK(GetVertex(p, verts).value)
      modifies this, active
      ensures Valid() && objs == old(objs)
      ensures var found := GetVertex(p, verts);
        underMouse && (found.None? || KeyOf(found.value) in old(picked)) ==>
          FinalizeEffect(old(picked), old(active), old(active.tmp), old(active.mesh), old(started), old(ended), false)
      ensures var found := GetVertex(p, verts);
        underMouse && found.Some? && KeyOf(found.value) !in old(picked) ==>
          var pick := old(PickOf(found.value, active));
          && active == old(active) && picked == old(picked) + [KeyOf(found.value)]
          && started == old(started) && ended == old(ended)
          && active.tmp == Added(old(active.tmp), old(active.PickPos(pick)), false, PickOwner(pick))
          && active.mesh == old(active.mesh)
      ensures !underMouse ==> active == old(active) && picked == old(picked) + (if grid.Some? then [None] else [])
      ensures !underMouse ==> started == old(started) && ended == old(ended)
      ensures !underMouse ==>
        && active.tmp == (if grid.Some? then Added(old(active.tmp), grid.value, true, None) else old(active.tmp))
        && active.mesh == old(active.mesh)
    {
      if underMouse {
        var found := GetVertex(p, verts);
        if found.None? || KeyOf(found.value) in picked {
          FinalizePolyCreation(false);
        } else {
          CommitPick(PickOf(found.value, active), KeyOf(found.value));
        }
      } else if grid.Some? {
        CommitPick(GridPoint(grid.value), None);
      }
    }

    /** The pick `pick`, recognised by `key`, committed on the active object. */
    method CommitPick(pick: Pick, key: Option<(GeomDataObject, nat)>)
      requires Valid() && active != null && active.PickOK(pick)
      modifies this, active
      ensures Valid() && active == old(active) && picked == old(picked) + [key] && objs == old(objs)
      ensures started == old(started) && ended == old(ended)
      ensures active.tmp == Added(old(active.tmp), old(active.PickPos(pick)), pick.GridPoint?, PickOwner(pick))
      ensures active.mesh == old(active.mesh)
    {
      active.AddNewPolyVertex(pick);
      SetPicks(picked + [key]);
    }

    /** Records the picks `p`, one per committed position of the active session. */
    method SetPicks(p: seq<Option<(GeomDataObject, nat)>>)
      requires active != null && active.Valid() && active.creating && p != [] && |p| == |active.tmp.vertPos|
      modifies this
      ensures Valid() && picked == p && active == old(active) && objs == old(objs)
      ensures started == old(started) && ended == old(ended)
    {
      picked := p;
    }

    /** The effect of `__finalize_poly_creation`: a refused finalize changes nothing;
        otherwise the session has ended, no object is active and the object that was
        active is left well formed, ready for another session. */
    ghost predicate FinalizeEffect(picked0: seq<Option<(GeomDataObject, nat)>>, active0: GeomDataObject,
                                   tmp0: TmpData, mesh0: Mesh, started0: bool, ended0: bool, cancel: bool)
      reads this, active0
      requires Shaped(tmp0)
    {
      if !cancel && |tmp0.vertPos| < 3 then
        && picked == picked0 && active == active0 && started == started0 && ended == ended0
        && active0.creating && active0.tmp == tmp0 && active0.mesh == mesh0
      else
        && picked == [] && active == null && !started && ended && !active0.creating && active0.Valid()
        && active0.mesh == if cancel then mesh0 else Committed(mesh0, tmp0)
    }

    /** `__remove_poly_vertex`: drop the last pick; withdraw its position, or cancel
        the session when it was the only one. */
    method RemovePolyVertex()
      requires Valid() && active != null
      modifies this, active
      ensures Valid() && objs == old(objs)
      ensures |old(picked)| == 1 ==>
        FinalizeEffect(old(picked), old(active), old(active.tmp), old(active.mesh), old(started), old(ended), true)
      ensures |old(picked)| > 1 ==>
        && active == old(active) && picked == DropLast(old(picked))
        && started == old(started) && ended == old(ended)
        && active.tmp == Removed(old(active.tmp)) && active.mesh == old(active.mesh)
    {
      picked := DropLast(picked);
      if picked != [] {
        var removed := active.RemoveNewPolyVertex();
      } else {
        FinalizePolyCreation(true);
      }
    }

    /** `__switch_start_vertex` */
    method SwitchStartVertex()
      requires Valid() && active != null
      modifies active
      ensures Valid() && active.tmp == Switched(old(active.tmp)) && active.mesh == old(active.mesh)
    {
      active.SwitchNewPolyStartVertex();
    }

    /** `__flip_poly_normal` */
    method FlipPolyNormal()
      requires Valid() && active != null
      modifies active
      ensures Valid() && active.tmp == Flipped(old(active.tmp)) && active.mesh == old(active.mesh)
    {
      active.FlipNewPolyNormal();
    }

    /** `__finalize_poly_creation`: finalize the session on the active object. */
    method FinalizePolyCreation(cancel: bool)
      requires active != null && active.Valid() && active.creating
      requires cancel || (|picked| == |active.tmp.vertPos| && picked != [])
      modifies this, active
      ensures Valid() && objs == old(objs)
      ensures FinalizeEffect(old(picked), old(active), old(active.tmp), old(active.mesh), old(started), old(ended), cancel)
    {
      var ok := active.FinalizePolyCreation(cancel);
      if !ok {
        return;
      }
      EndSession();
    }

    /** Forgets the active object and its picks and marks the session as ended. */
    method EndSession()
      modifies this
      ensures Valid() && active == null && picked == [] && !started && ended && objs == old(objs)
    {
      active := null;
      picked := [];
      started, ended := false, true;
    }
  }
}
