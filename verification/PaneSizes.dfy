/** Terminal sizes (server/src/pane.rs, handlers/config.rs, create.rs, resize.rs) and the
    resolution of pane names (server/src/state.rs), over sequential requests. */
module PaneSizes {
  import opened Wrappers

  type Id = nat
  type u16 = n: nat | n < 0x1_0000

  datatype PaneSize = PaneSize(cols: u16, rows: u16)

  datatype Error = BadRequest | NotFound | Internal

  datatype ConfigResponse = ConfigResponse(maxEvents: nat, cols: u16, rows: u16)

  predicate Positive(size: PaneSize) { size.cols >= 1 && size.rows >= 1 }

  function Validate(size: PaneSize): Result<PaneSize, Error> {
    if size.cols == 0 || size.rows == 0 then Err(BadRequest) else Ok(size)
  }

  /** The three copies of a pane's size: the PTY's, the parser's, and the recorded one. */
  class Pane {
    const name: Option<string>
    var pty: PaneSize
    var parser: PaneSize
    var recorded: PaneSize

    ghost predicate Has(size: PaneSize) reads this { pty == parser == recorded == size && Positive(size) }

    ghost predicate Agrees() reads this { Has(recorded) }

    constructor (size: PaneSize, name: Option<string>)
      requires Positive(size)
      ensures Has(size) && this.name == name
    {
      this.pty, this.parser, this.recorded, this.name := size, size, size, name;
    }

    /** resize_pane; the PTY's own resize may fail, before anything else is touched. */
    method Resize(size: PaneSize, ptyOk: bool) returns (r: Result<(), Error>)
      modifies this
      ensures r == if !Positive(size) then Err(BadRequest) else if !ptyOk then Err(Internal) else Ok(())
      ensures r.Ok? ==> Has(size)
      ensures r.Err? ==> unchanged(this)
    {
      var valid := Validate(size);
      if valid.Err? { return Err(BadRequest); }
      if !ptyOk { return Err(Internal); }
      pty := size;
      parser := size;
      recorded := size;
      r := Ok(());
    }
  }

  /** A body's cols and rows fall back to the defaults one by one. */
  function Requested(cols: Option<u16>, rows: Option<u16>, default_: PaneSize): (size: PaneSize)
    ensures size.cols == match cols { case Some(n) => n case None => default_.cols }
    ensures size.rows == match rows { case Some(n) => n case None => default_.rows }
  {
    PaneSize(if cols.Some? then cols.value else default_.cols, if rows.Some? then rows.value else default_.rows)
  }

  /** How many panes an apply-to-all resizes before the first failure. */
  function FirstFailure(order: seq<Id>, failing: set<Id>): (k: nat)
    ensures k <= |order| && (k < |order| ==> order[k] in failing)
    ensures forall i :: 0 <= i < k ==> order[i] !in failing
  {
    if order == [] || order[0] in failing then 0
    else
      var k := FirstFailure(order[1..], failing);
      assert forall i :: 0 < i <= k ==> order[i] == order[1..][i - 1] || i == k;
      1 + k
  }

  /** Is `order` a way of iterating over the registry, each pane once? */
  ghost predicate Enumerates(order: seq<Id>, panes: map<Id, Pane>) {
    && (forall id :: id in order <==> id in panes)
    && forall i, j :: 0 <= i < j < |order| ==> order[i] != order[j]
  }

  class AppState {
    var panes: map<Id, Pane>
    var defaultSize: PaneSize
    var defaultMaxEvents: nat

    /** Every default and every pane is at least 1 x 1, and no pane's three sizes differ. */
    ghost predicate Valid() reads this, panes.Values {
      && Positive(defaultSize)
      && (forall id :: id in panes ==> panes[id].Agrees())
      && forall a, b :: a in panes && b in panes && a != b ==> panes[a] != panes[b]
    }

    constructor (maxEvents: nat)
      ensures Valid() && panes == map[] && defaultSize == PaneSize(220, 50) && defaultMaxEvents == maxEvents
    {
      panes, defaultSize, defaultMaxEvents := map[], PaneSize(220, 50), maxEvents;
    }

    /** create_pane_handler; `id` is the pane's fresh UUID, `spawnOk` whether the PTY and the
        shell could be started. */
    method CreatePane(id: Id, cols: Option<u16>, rows: Option<u16>, name: Option<string>, spawnOk: bool)
      returns (r: Result<Id, Error>)
      requires Valid() && id !in panes
      modifies this
      ensures Valid() && defaultSize == old(defaultSize)
      ensures r == if !Positive(Requested(cols, rows, defaultSize)) then Err(BadRequest)
                   else if !spawnOk then Err(Internal)
                   else Ok(id)
      ensures r.Err? ==> panes == old(panes)
      ensures r.Ok? ==> r.value == id && panes.Keys == old(panes).Keys + {id}
      ensures r.Ok? ==> fresh(panes[id]) && panes[id].Has(Requested(cols, rows, defaultSize)) && panes[id].name == name
      ensures r.Ok? ==> forall other :: other in old(panes) ==> panes[other] == old(panes)[other]
    {
      var size := Requested(cols, rows, defaultSize);
      var valid := Validate(size);
      if valid.Err? { return Err(BadRequest); }
      if !spawnOk { return Err(Internal); }
      var pane := new Pane(size, name);
      panes := panes[id := pane];
      r := Ok(id);
    }

    /** resize_pane_handler. */
    method ResizePane(id: Id, size: PaneSize, ptyOk: bool) returns (r: Result<(), Error>)
      requires Valid()
      modifies panes.Values
      ensures Valid()
      ensures r == if id !in panes then Err(NotFound)
                   else if !Positive(size) then Err(BadRequest)
                   else if !ptyOk then Err(Internal)
                   else Ok(())
      ensures r.Ok? ==> panes[id].Has(size)
      ensures forall other :: other in panes && (other != id || r.Err?) ==> unchanged(panes[other])
    {
      if id !in panes { return Err(NotFound); }
      var valid := Validate(size);
      if valid.Err? { return Err(BadRequest); }
      r := panes[id].Resize(size, ptyOk);
    }

    /** The loop of update_config_handler: in the map's order, up to the first failure. */
    method ApplyToExisting(size: PaneSize, order: seq<Id>, failing: set<Id>) returns (r: Result<(), Error>)
      requires Valid() && Positive(size) && Enumerates(order, panes)
      modifies panes.Values
      ensures Valid()
      ensures r == if FirstFailure(order, failing) == |order| then Ok(()) else Err(Internal)
      ensures forall i :: 0 <= i < FirstFailure(order, failing) ==> panes[order[i]].Has(size)
      ensures forall i :: FirstFailure(order, failing) <= i < |order| ==> unchanged(panes[order[i]])
    {
      var i := 0;
      while i < |order|
        invariant i <= |order| && i <= FirstFailure(order, failing)
        invariant forall id :: id in panes ==> panes[id].Agrees()
        invariant forall j :: 0 <= j < i ==> panes[order[j]].Has(size)
        invariant forall j :: i <= j < |order| ==> unchanged(panes[order[j]])
      {
        assert order[i] in panes;
        ghost var k := FirstFailure(order, failing);
        assert order[i] in failing <==> k == i;
        var resized := panes[order[i]].Resize(size, order[i] !in failing);
        if resized.Err? { return Err(Internal); }
        i := i + 1;
      }
      r := Ok(());
    }

    /** update_config_handler. The event limit is stored even when the size is then refused. */
    method UpdateConfig(maxEvents: Option<nat>, cols: Option<u16>, rows: Option<u16>, apply: bool,
                        order: seq<Id>, failing: set<Id>) returns (r: Result<ConfigResponse, Error>)
      requires Valid() && Enumerates(order, panes)
      modifies this, panes.Values
      ensures Valid() && panes == old(panes)
      ensures defaultMaxEvents == if maxEvents.Some? then Max(maxEvents.value, 100) else old(defaultMaxEvents)
      ensures var size := Requested(cols, rows, old(defaultSize));
        defaultSize == if Positive(size) then size else old(defaultSize)
      ensures var size := Requested(cols, rows, old(defaultSize));
        var k := if apply && Positive(size) then FirstFailure(order, failing) else 0;
        && (forall i :: 0 <= i < k ==> panes[order[i]].Has(size))
        && (forall i :: k <= i < |order| ==> unchanged(panes[order[i]]))
        && r == if !Positive(size) then Err(BadRequest)
                else if apply && k < |order| then Err(Internal)
                else Ok(ConfigResponse(defaultMaxEvents, size.cols, size.rows))
    {
      if maxEvents.Some? {
        defaultMaxEvents := Max(maxEvents.value, 100);
      }
      var newSize := Requested(cols, rows, defaultSize);
      var valid := Validate(newSize);
      if valid.Err? { return Err(BadRequest); }
      defaultSize := newSize;
      if apply {
        var applied := ApplyToExisting(newSize, order, failing);
        if applied.Err? { return Err(Internal); }
      }
      r := Ok(ConfigResponse(defaultMaxEvents, newSize.cols, newSize.rows));
    }

    /** resolve_pane_id, over the map in any order: `parsed` is the UUID the text spells, if any.
        A listed UUID wins; otherwise the name must be that of exactly one pane. */
    method ResolvePaneId(text: string, parsed: Option<Id>, order: seq<Id>) returns (r: Result<Id, Error>)
      requires Enumerates(order, panes)
      ensures parsed.Some? && parsed.value in panes ==> r == Ok(parsed.value)
      ensures !(parsed.Some? && parsed.value in panes) ==>
        var named := set id | id in panes && panes[id].name == Some(text);
        && (forall id :: r == Ok(id) <==> named == {id})
        && (r == Err(NotFound) <==> named == {})
        && r != Err(Internal)
    {
      if parsed.Some? && parsed.value in panes {
        return Ok(parsed.value);
      }
      ghost var named := set id | id in panes && panes[id].name == Some(text);
      var first: Option<Id> := None;
      var i := 0;
      while i < |order|
        invariant i <= |order|
        invariant forall j :: 0 <= j < i ==> order[j] in panes
        invariant forall j :: 0 <= j < i && panes[order[j]].name == Some(text) ==> first == Some(order[j])
        invariant first.Some? ==> first.value in named && first.value in order[..i]
      {
        assert order[i] in panes;
        if panes[order[i]].name == Some(text) {
          if first.Some? {
            assert order[i] in named && first.value != order[i];
            return Err(BadRequest);
          }
          first := Some(order[i]);
        }
        i := i + 1;
      }
      assert forall id :: id in named ==> id in order;
      if first.Some? {
        assert named == {first.value};
        r := Ok(first.value);
      } else {
        r := Err(NotFound);
      }
    }
  }
}
