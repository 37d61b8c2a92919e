/** The Venus product runtime is a drop-in replacement for the hand-written parser. */
module VenusDropIn {
  import opened Bytes
  import opened Schema
  import opened VenusModel
  import opened VenusLegacy
  import opened VenusProduct

  /** The values after a sequence of frames: each accepted frame overwrites what it supplies. */
  function After(frames: seq<seq<byte>>, start: Values): Values {
    if frames == [] then start
    else Next(After(frames[..|frames| - 1], start), frames[|frames| - 1])
  }

  function Next(v: Values, frame: seq<byte>): Values {
    v + if FrameUpdate(frame).Some? then FrameUpdate(frame).value else map[]
  }

  predicate Gives(frame: seq<byte>, a: Attribute) {
    FrameUpdate(frame).Some? && a in FrameUpdate(frame).value
  }

  lemma NextHolds(v: Values, frame: seq<byte>, a: Attribute)
    ensures Gives(frame, a) ==> a in Next(v, frame) && Next(v, frame)[a] == FrameUpdate(frame).value[a]
    ensures !Gives(frame, a) ==> (a in Next(v, frame) <==> a in v) && (a in v ==> Next(v, frame)[a] == v[a])
  {
    hide FrameUpdate;
  }

  /** An attribute holds what the last frame that supplies it supplies. */
  lemma {:induction false} HeldFromLast(frames: seq<seq<byte>>, start: Values, a: Attribute, k: nat)
    requires k < |frames| && Gives(frames[k], a) && forall j | k < j < |frames| :: !Gives(frames[j], a)
    ensures a in After(frames, start) && After(frames, start)[a] == FrameUpdate(frames[k]).value[a]
  {
    hide FrameUpdate, Gives, Next;
    var n := |frames| - 1;
    NextHolds(After(frames[..n], start), frames[n], a);
    if k == n {
    } else {
      HeldFromLast(frames[..n], start, a, k);
    }
  }

  /** It holds what it held at the start if no frame supplies it. */
  lemma {:induction false} HeldFromStart(frames: seq<seq<byte>>, start: Values, a: Attribute)
    requires a in start && forall j | 0 <= j < |frames| :: !Gives(frames[j], a)
    ensures a in After(frames, start) && After(frames, start)[a] == start[a]
  {
    hide FrameUpdate, Gives, Next;
    if frames == [] {
    } else {
      var n := |frames| - 1;
      NextHolds(After(frames[..n], start), frames[n], a);
      HeldFromStart(frames[..n], start, a);
    }
  }

  const DEFAULTS: Values := map a | a in ATTRIBUTES :: Initial(a)

  /** Every attribute begins unset, the sixteen cells each on its own. */
  lemma DefaultsAreUnset(a: Attribute)
    ensures a in DEFAULTS
    ensures a != Battery(CellVoltages) ==> DEFAULTS[a] == Unset
    ensures a == Battery(CellVoltages) ==>
      && DEFAULTS[a].Cells? && |DEFAULTS[a].cells| == 16 && forall i | 0 <= i < 16 :: DEFAULTS[a].cells[i].None?
  {
    hide ATTRIBUTES;
    EveryAttribute(a);
  }

  lemma AfterStep(frames: seq<seq<byte>>, n: nat, start: Values)
    requires n < |frames|
    ensures After(frames[..n + 1], start) == Next(After(frames[..n], start), frames[n])
  {
    hide Next;
    assert frames[..n + 1][..n] == frames[..n];
  }

  lemma {:induction false} EveryAttributeHasAValue(frames: seq<seq<byte>>)
    ensures After(frames, DEFAULTS).Keys == ATTRIBUTES
  {
    hide FrameUpdate, ATTRIBUTES;
    if frames == [] {
    } else {
      EveryAttributeHasAValue(frames[..|frames| - 1]);
      forall a: Attribute ensures a in ATTRIBUTES {
        EveryAttribute(a);
      }
    }
  }

  /** The booleans and values that n frames give, one after another. */
  ghost predicate Follows(frames: seq<seq<byte>>, oks: seq<bool>, values: seq<Values>) {
    && |oks| == |values| <= |frames|
    && forall i | 0 <= i < |oks| ::
         oks[i] == FrameUpdate(frames[i]).Some? && values[i] == After(frames[..i + 1], DEFAULTS) &&
           values[i].Keys == ATTRIBUTES
  }

  lemma FollowsMore(frames: seq<seq<byte>>, oks: seq<bool>, values: seq<Values>, ok: bool, v: Values)
    requires Follows(frames, oks, values) && |oks| < |frames|
    requires ok == FrameUpdate(frames[|oks|]).Some? && v == After(frames[..|oks| + 1], DEFAULTS)
    ensures Follows(frames, oks + [ok], values + [v])
  {
    hide FrameUpdate, After, ATTRIBUTES;
    EveryAttributeHasAValue(frames[..|oks| + 1]);
  }

  /** The same frame given to both parsers. */
  method FeedOne(
      frame: seq<byte>, flat: MarstekData, data: ProductObject<VName, Val>) returns (legacy: bool, product: bool)
    requires Shaped(data.root) && HasCells(flat.values) && FlatValues(data.root) == flat.values
    modifies flat, data
    ensures Shaped(data.root) && HasCells(flat.values)
    ensures FlatValues(data.root) == flat.values == Next(old(flat.values), frame)
    ensures legacy == product == FrameUpdate(frame).Some?
  {
    hide Shaped, HasCells, FlatValues, FrameUpdate, Reports;
    legacy := flat.ParseNotification(frame);
    var paths;
    product, paths := ParseNotification(frame, data);
  }

  /** Whatever byte strings arrive, in whatever order, both parsers return the same boolean on each
      one, and hold the same value in every flat attribute after each one. */
  method FeedBoth(frames: seq<seq<byte>>)
    returns (legacy: seq<bool>, product: seq<bool>, legacyValues: seq<Values>, productValues: seq<Values>)
    ensures legacy == product && legacyValues == productValues
    ensures |legacy| == |frames| && Follows(frames, legacy, legacyValues)
  {
    hide Shaped, HasCells, FlatValues, FrameUpdate, ATTRIBUTES, Initial, After, Follows, Next, Tree;
    NothingFollows(frames);
    FreshTree();
    var flat := new MarstekData();
    var data := new ProductObject(Tree());
    legacy, product, legacyValues, productValues := [], [], [], [];
    for n := 0 to |frames|
      invariant Shaped(data.root) && HasCells(flat.values)
      invariant FlatValues(data.root) == flat.values == After(frames[..n], DEFAULTS)
      invariant legacy == product && legacyValues == productValues && |legacy| == n
      invariant Follows(frames, legacy, legacyValues)
    {
      AfterStep(frames, n, DEFAULTS);
      var byLegacy, byProduct := FeedOne(frames[n], flat, data);
      FollowsMore(frames, legacy, legacyValues, byLegacy, flat.values);
      legacy, product := legacy + [byLegacy], product + [byProduct];
      legacyValues, productValues := legacyValues + [flat.values], productValues + [FlatValues(data.root)];
    }
  }

  lemma NothingFollows(frames: seq<seq<byte>>)
    ensures Follows(frames, [], []) && After(frames[..0], DEFAULTS) == DEFAULTS
  {
  }
}
