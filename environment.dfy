/** The chained environments (`Environment`, a `ChainMap`) and the
    interpreter state that evaluation threads through. Frames live in an
    arena: frame 0 is the global environment, and a procedure call appends
    a frame whose parent is the procedure's defining frame. Frames are never
    removed, and a parent always has a smaller index than its child. */
module Environment {
  import opened Wrappers
  import opened Values

  /** One frame: its own table and the frame it extends. */
  datatype Frame = Frame(table: map<string, Value>, parent: Option<nat>)

  /** The state shared by all evaluations: the frames, the positions of the
      operators' type streams, and the serial number the next procedure
      object gets. */
  datatype Store = Store(frames: seq<Frame>, cursor: map<OpName, nat>, serial: nat)

  /** Every parent link points to an earlier frame. */
  predicate Linked(frames: seq<Frame>) {
    forall i :: 0 <= i < |frames| && frames[i].parent.Some? ==> frames[i].parent.value < i
  }

  /** `env[name]`: the innermost binding along the parent chain. An index
      outside the arena, or a link that does not point to an earlier frame,
      finds nothing; neither happens in a `Linked` arena. */
  function Lookup(frames: seq<Frame>, id: nat, name: string): Option<Value>
    decreases id
  {
    if id >= |frames| then None
    else if name in frames[id].table then Some(frames[id].table[name])
    else
      match frames[id].parent
      case Some(p) => if p < id then Lookup(frames, p, name) else None
      case None => None
  }

  /** `name in env`. */
  predicate Bound(frames: seq<Frame>, id: nat, name: string) {
    Lookup(frames, id, name).Some?
  }

  /** The frames from `id` outwards to the global frame. */
  function Chain(frames: seq<Frame>, id: nat): (c: seq<nat>)
    ensures forall k :: 0 <= k < |c| ==> c[k] < |frames|
    ensures id < |frames| ==> |c| > 0 && c[0] == id
    decreases id
  {
    if id >= |frames| then []
    else
      match frames[id].parent
      case Some(p) => if p < id then [id] + Chain(frames, p) else [id]
      case None => [id]
  }

  /** `env[name] = v`: writes the frame's own table only. */
  function DefineIn(frames: seq<Frame>, id: nat, name: string, v: Value): seq<Frame>
    requires id < |frames|
  {
    frames[id := frames[id].(table := frames[id].table[name := v])]
  }

  /** `Environment.change`: the frame's own table if it has the name;
      otherwise, if the name is bound anywhere further out, the parent's own
      table (a `ChainMap` assignment writes its first map); otherwise `None`,
      the `KeyError`. */
  function Change(frames: seq<Frame>, id: nat, name: string, v: Value): Option<seq<Frame>>
    requires id < |frames|
  {
    if name in frames[id].table then Some(DefineIn(frames, id, name, v))
    else
      match frames[id].parent
      case Some(p) => if p < id && Bound(frames, p, name) then Some(DefineIn(frames, p, name, v)) else None
      case None => None
  }

  function Min(a: nat, b: nat): nat { if a <= b then a else b }

  /** `dict(zip(parms, args))` over the first `k` pairs: a later parameter
      with the same name overrides an earlier one. */
  function ZipBind(params: seq<string>, args: seq<Value>, k: nat): map<string, Value>
    requires k <= |params| && k <= |args|
  {
    if k == 0 then map[] else ZipBind(params, args, k - 1)[params[k - 1] := args[k - 1]]
  }

  /** The table of a call: parameters paired with arguments up to the
      shorter of the two; surplus arguments are dropped and surplus
      parameters stay unbound. */
  function Bindings(params: seq<string>, args: seq<Value>): map<string, Value> {
    ZipBind(params, args, Min(|params|, |args|))
  }

  /** `Procedure.application_env`: a new frame holding the bindings, whose
      parent is the procedure's defining frame. */
  function NewFrame(frames: seq<Frame>, params: seq<string>, args: seq<Value>, parent: nat): seq<Frame> {
    frames + [Frame(Bindings(params, args), Some(parent))]
  }

  // ---------------------------------------------------------------------
  // Properties

  /** Lookup is the first binding along the chain: nothing is found exactly
      when no frame of the chain has the name, and otherwise the value is
      the one of the first frame that has it. */
  lemma LookupInnermost(frames: seq<Frame>, id: nat, name: string)
    ensures var c := Chain(frames, id);
            Lookup(frames, id, name).None? <==> forall k :: 0 <= k < |c| ==> name !in frames[c[k]].table
    ensures var c := Chain(frames, id);
            forall k :: 0 <= k < |c| && name in frames[c[k]].table &&
                        (forall j :: 0 <= j < k ==> name !in frames[c[j]].table)
                        ==> Lookup(frames, id, name) == Some(frames[c[k]].table[name])
  {
    LookupMisses(frames, id, name);
    LookupFirst(frames, id, name);
  }

  lemma {:induction false} LookupMisses(frames: seq<Frame>, id: nat, name: string)
    ensures var c := Chain(frames, id);
            Lookup(frames, id, name).None? <==> forall k :: 0 <= k < |c| ==> name !in frames[c[k]].table
    decreases id
  {
    var c := Chain(frames, id);
    if id < |frames| && name !in frames[id].table && frames[id].parent.Some? && frames[id].parent.value < id {
      var p := frames[id].parent.value;
      LookupMisses(frames, p, name);
      assert c == [id] + Chain(frames, p);
      if Lookup(frames, id, name).Some? {
        var k :| 0 <= k < |Chain(frames, p)| && name in frames[Chain(frames, p)[k]].table;
        assert c[k + 1] == Chain(frames, p)[k];
      } else {
        forall k | 0 <= k < |c| ensures name !in frames[c[k]].table {
          if k > 0 { assert c[k] == Chain(frames, p)[k - 1]; }
        }
      }
    }
  }

  lemma {:induction false} LookupFirst(frames: seq<Frame>, id: nat, name: string)
    ensures var c := Chain(frames, id);
            forall k :: 0 <= k < |c| && name in frames[c[k]].table &&
                        (forall j :: 0 <= j < k ==> name !in frames[c[j]].table)
                        ==> Lookup(frames, id, name) == Some(frames[c[k]].table[name])
    decreases id
  {
    var c := Chain(frames, id);
    if id < |frames| && name !in frames[id].table && frames[id].parent.Some? && frames[id].parent.value < id {
      var p := frames[id].parent.value;
      LookupFirst(frames, p, name);
      assert c == [id] + Chain(frames, p);
      forall k | 0 <= k < |c| && name in frames[c[k]].table && (forall j :: 0 <= j < k ==> name !in frames[c[j]].table)
        ensures Lookup(frames, id, name) == Some(frames[c[k]].table[name])
      {
        assert k > 0;
        assert c[k] == Chain(frames, p)[k - 1];
        forall j | 0 <= j < k - 1 ensures name !in frames[Chain(frames, p)[j]].table {
          assert Chain(frames, p)[j] == c[j + 1];
        }
      }
    }
  }

  /** `define` changes only the head frame: the defined name is then found
      there, every other lookup from every frame is as before, and no link
      changes. */
  lemma {:induction false} DefineOnlyHead(frames: seq<Frame>, id: nat, name: string, v: Value, j: nat, n: string)
    requires id < |frames|
    ensures var f := DefineIn(frames, id, name, v);
            |f| == |frames| && (forall i :: 0 <= i < |f| ==> f[i].parent == frames[i].parent) &&
            (forall i :: 0 <= i < |f| && i != id ==> f[i] == frames[i])
    ensures Lookup(DefineIn(frames, id, name, v), id, name) == Some(v)
    ensures n != name ==> Lookup(DefineIn(frames, id, name, v), j, n) == Lookup(frames, j, n)
    decreases j
  {
    var f := DefineIn(frames, id, name, v);
    if n != name && j < |frames| && n !in frames[j].table && frames[j].parent.Some? && frames[j].parent.value < j {
      DefineOnlyHead(frames, id, name, v, frames[j].parent.value, n);
    }
  }

  /** `set!` finds a frame to write exactly when the name is bound. */
  lemma ChangeIffBound(frames: seq<Frame>, id: nat, name: string, v: Value)
    requires id < |frames|
    ensures Change(frames, id, name, v).Some? <==> Bound(frames, id, name)
  {
  }

  /** Where `change` writes: the head frame when it owns the name, otherwise
      the parent frame's own table, even when the binding found lives
      further out; that outer binding is then shadowed, not updated. */
  lemma ChangeWrites(frames: seq<Frame>, id: nat, name: string, v: Value)
    requires id < |frames| && Linked(frames)
    ensures name in frames[id].table ==> Change(frames, id, name, v) == Some(DefineIn(frames, id, name, v))
    ensures name !in frames[id].table && Bound(frames, id, name) ==>
              frames[id].parent.Some? &&
              Change(frames, id, name, v) == Some(DefineIn(frames, frames[id].parent.value, name, v))
    ensures Change(frames, id, name, v).Some? ==> Lookup(Change(frames, id, name, v).value, id, name) == Some(v)
  {
    if name !in frames[id].table && Bound(frames, id, name) {
      var p := frames[id].parent.value;
      DefineOnlyHead(frames, p, name, v, p, name);
      assert Lookup(DefineIn(frames, p, name, v), id, name) == Lookup(DefineIn(frames, p, name, v), p, name);
    } else if name in frames[id].table {
      DefineOnlyHead(frames, id, name, v, id, name);
    }
  }

  /** Two frames out: the grandparent's binding survives a `set!` from the
      inner frame, which writes a new binding into the parent instead. */
  lemma ChangeShadowsOuter(frames: seq<Frame>, id: nat, name: string, v: Value)
    requires id < |frames| && Linked(frames)
    requires name !in frames[id].table && frames[id].parent.Some?
    requires name !in frames[frames[id].parent.value].table
    requires Bound(frames, id, name)
    ensures var p := frames[id].parent.value;
            var f := Change(frames, id, name, v).value;
            name in f[p].table && f[p].table[name] == v &&
            (forall i :: 0 <= i < |frames| && i != p ==> f[i] == frames[i])
  {
  }

  /** The call table binds exactly the first `k` parameters. */
  lemma {:induction false} ZipBindKeys(params: seq<string>, args: seq<Value>, k: nat)
    requires k <= |params| && k <= |args|
    ensures forall n :: n in ZipBind(params, args, k) <==> n in params[..k]
  {
    if k > 0 {
      ZipBindKeys(params, args, k - 1);
      assert params[..k] == params[..k - 1] + [params[k - 1]];
    }
  }

  /** Each of the first `k` parameters is bound to the argument at the last
      position it occupies among them. */
  lemma {:induction false} ZipBindValues(params: seq<string>, args: seq<Value>, k: nat)
    requires k <= |params| && k <= |args|
    ensures forall j :: 0 <= j < k && (forall i :: j < i < k ==> params[i] != params[j]) ==>
              params[j] in ZipBind(params, args, k) && ZipBind(params, args, k)[params[j]] == args[j]
  {
    if k > 0 {
      ZipBindValues(params, args, k - 1);
      forall j | 0 <= j < k && (forall i :: j < i < k ==> params[i] != params[j])
        ensures params[j] in ZipBind(params, args, k) && ZipBind(params, args, k)[params[j]] == args[j]
      {
        if j < k - 1 {
          assert params[k - 1] != params[j];
          assert forall i :: j < i < k - 1 ==> params[i] != params[j];
        }
      }
    }
  }

  /** Every parameter that is bound in a call frame gets its argument; a
      missing argument leaves the parameter unbound. */
  lemma BindingsSpec(params: seq<string>, args: seq<Value>)
    ensures forall n :: n in Bindings(params, args) <==> n in params[..Min(|params|, |args|)]
    ensures |params| == |args| && (forall i, j :: 0 <= i < j < |params| ==> params[i] != params[j]) ==>
              forall j :: 0 <= j < |params| ==> Bindings(params, args)[params[j]] == args[j]
  {
    ZipBindKeys(params, args, Min(|params|, |args|));
    ZipBindValues(params, args, Min(|params|, |args|));
  }

  /** Static scoping: in a call frame, a parameter is found in the frame and
      every other name is looked up from the procedure's defining frame; the
      caller's frame plays no part. Existing frames are unchanged and the
      arena stays linked. */
  lemma CallFrame(frames: seq<Frame>, params: seq<string>, args: seq<Value>, def: nat, n: string)
    requires def < |frames|
    ensures var f := NewFrame(frames, params, args, def);
            |f| == |frames| + 1 && f[..|frames|] == frames && f[|frames|].parent == Some(def)
    ensures n !in params[..Min(|params|, |args|)] ==>
              Lookup(NewFrame(frames, params, args, def), |frames|, n) == Lookup(frames, def, n)
    ensures Linked(frames) ==> Linked(NewFrame(frames, params, args, def))
  {
    var f := NewFrame(frames, params, args, def);
    BindingsSpec(params, args);
    if n !in params[..Min(|params|, |args|)] {
      LookupPrefix(frames, f, def, n);
    }
  }

  /** Lookups from an existing frame are not affected by appending frames. */
  lemma {:induction false} LookupPrefix(frames: seq<Frame>, f: seq<Frame>, id: nat, n: string)
    requires |frames| <= |f| && f[..|frames|] == frames
    ensures id < |frames| ==> Lookup(f, id, n) == Lookup(frames, id, n)
    decreases id
  {
    if id < |frames| {
      assert f[id] == frames[id];
      if n !in frames[id].table && frames[id].parent.Some? && frames[id].parent.value < id {
        LookupPrefix(frames, f, frames[id].parent.value, n);
      }
    }
  }

  /** `define` and `set!` keep the arena linked. */
  lemma DefineKeepsLinked(frames: seq<Frame>, id: nat, name: string, v: Value)
    requires id < |frames| && Linked(frames)
    ensures Linked(DefineIn(frames, id, name, v))
    ensures Change(frames, id, name, v).Some? ==> Linked(Change(frames, id, name, v).value)
  {
  }
}
