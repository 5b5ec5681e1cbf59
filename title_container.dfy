/**
  * `ExpandablePeerTitleContainerNode`: the title container that holds one
  * `ExpandablePeerTitleTextNode` per title state (normal, intersected by
  * the avatar, ...). It lays every state out against the main state's
  * expanded layout, centres all of them on the main state's size, fans the
  * states' alphas out to their nodes and accessory views, and fades the
  * one-line title out where it meets the available width.
  */
module TitleContainer {
  import opened Geometry
  import opened LayoutLines
  import opened ExpandedLayout
  import opened TitleTextNode

  /** The keys of the title states (`AnyHashable` in the container). */
  type StateKey = int

  /** `ExpandablePeerTitleTextNodeState`: the string of a state and its alpha. */
  datatype TitleState = TitleState(title: Text, alpha: real)

  /** An accessory view attached to a state; only its alpha is modelled. */
  class AccessoryView {
    var alpha: real

    constructor(alpha: real)
      ensures this.alpha == alpha
    {
      this.alpha := alpha;
    }
  }

  /**
    * The gradient mask of the fadable container: the solid part, the
    * gradient next to it (fading leftwards when `fadesLeft`), and the
    * mask's own frame.
    */
  datatype GradientFadeMask = GradientFadeMask(solid: Rect, gradient: Rect, frame: Rect, fadesLeft: bool)

  const GradientRadius: real := 30.0

  /** `adjustForRTL`: how much wider than the container the solid part of a right-to-left mask is. */
  const RtlSolidAdjustment: real := 12.0

  /**
    * The mask `updateFading` installs. A right-to-left title keeps the part
    * right of max(containerWidth - solidWidth, 30) solid and fades out over
    * the 30 points left of it; a left-to-right title keeps its first
    * `solidWidth` points solid and fades out over the 45 points after them.
    * The mask is centred vertically and starts half the container width
    * left of the centre, moved by `offset`.
    */
  function FadingMask(singleLineIsRTL: bool, solidWidth: real, containerWidth: real, height: real, offset: real)
    : (r: GradientFadeMask)
    ensures r.fadesLeft == singleLineIsRTL
    ensures r.solid.y == 0.0 && r.gradient.y == 0.0 && r.solid.height == height && r.gradient.height == height
    ensures r.frame == Rect(-containerWidth / 2.0 + offset, -height / 2.0, 0.0, height)
    ensures singleLineIsRTL ==>
              && r.solid.x >= GradientRadius && r.solid.x >= containerWidth - solidWidth
              && (r.solid.x == GradientRadius || r.solid.x == containerWidth - solidWidth)
              && r.solid.width == containerWidth + RtlSolidAdjustment
              && r.gradient.width == GradientRadius && r.gradient.x + r.gradient.width == r.solid.MinX()
    ensures !singleLineIsRTL ==>
              && r.solid.x == 0.0 && r.solid.width == solidWidth
              && r.gradient.x == r.solid.x + r.solid.width && r.gradient.width == GradientRadius * 1.5
  {
    var gradientInset := 0.0;
    var solid :=
      if singleLineIsRTL then
        Rect(Max(containerWidth - solidWidth, GradientRadius), 0.0, containerWidth + RtlSolidAdjustment, height)
      else
        Rect(0.0, 0.0, solidWidth + gradientInset, height);
    var gradient :=
      if singleLineIsRTL then Rect(solid.MinX() - GradientRadius, 0.0, GradientRadius, height)
      else Rect(solidWidth + gradientInset, 0.0, GradientRadius * 1.5, height);
    var offsetX := 0.0;
    GradientFadeMask(solid, gradient, Rect(-containerWidth / 2.0 + offsetX + offset, -height / 2.0, 0.0, height),
                     singleLineIsRTL)
  }

  /** The frame `update` gives every state's text: centred on the origin with the main state's size. */
  function CentredFrame(mainSize: Size): (r: Rect)
    ensures r.Dimensions() == mainSize
    ensures mainSize.width >= 0.0 && mainSize.height >= 0.0 ==>
              r.x + r.width / 2.0 == 0.0 && r.y + r.height / 2.0 == 0.0
  {
    var mainBounds := Rect(-mainSize.width / 2.0, -mainSize.height / 2.0, mainSize.width, mainSize.height);
    Rect(mainBounds.MinX(), mainBounds.MinY() + Floor((mainBounds.AbsHeight() - mainSize.height) / 2.0),
         mainSize.width, mainSize.height)
  }

  /** The alignment every state is laid out with: left while the avatar is expanded, centred otherwise. */
  function ForcedAlignment(isAvatarExpanded: bool): Option<TextAlignment>
  {
    Some(if isAvatarExpanded then Left else Center)
  }

  /**
    * The body of `update`'s loop for one state whose node exists: the
    * state is laid out with the common layout when there is one and with
    * its own expanded layout otherwise, and the node is updated with it.
    */
  method UpdateStateNode(node: ExpandablePeerTitleTextNode, title: Text, common: Option<ExpandableTextNodeLayout>,
                         forced: Option<TextAlignment>, cs: Size, f: real, needsExpansionLayoutUpdate: bool)
    returns (size: Size)
    requires node.Valid()
    modifies node`currentString, node`currentLayout, node`currentConstrainedSize, node`prevAlignment,
             node`fragments, node`prevExpansion, node`currentExpandedTotalSize, node`singleLineInfo
    ensures node.Valid()
    ensures node.UpdatedFrom(old(node.Cache()), title,
                             if common.Some? then common.value else old(node.LayoutFor(title, forced, cs)),
                             f, needsExpansionLayoutUpdate, size)
  {
    var layout;
    if common.Some? {
      layout := common.value;
    } else {
      layout := node.GetExpandedLayout(title, forced, cs);
    }
    size := node.UpdateIfNeeded(title, layout, f, needsExpansionLayoutUpdate);
  }

  /** `order` lists every key of `states`, and only those: the order a dictionary enumerates them in. */
  predicate Enumerates(order: seq<StateKey>, states: map<StateKey, TitleState>)
  {
    && (forall i :: 0 <= i < |order| ==> order[i] in states)
    && (forall k :: k in states ==> k in order)
  }

  /**
    * The alpha the accessory view of state `k` holds once the states of
    * `visits` gave theirs to their views in that order, starting from
    * `initial`: several states may share one view, and the last of them
    * wins.
    */
  function ViewAlpha(views: map<StateKey, AccessoryView>, states: map<StateKey, TitleState>,
                     visits: seq<StateKey>, k: StateKey, initial: real): real
    requires k in views
    requires forall i :: 0 <= i < |visits| ==> visits[i] in states
  {
    if visits == [] then initial
    else
      var last := visits[|visits| - 1];
      if last in views && views[last] == views[k] then states[last].alpha
      else ViewAlpha(views, states, visits[..|visits| - 1], k, initial)
  }

  /**
    * The view of a state that was visited holds the alpha of a visited
    * state sharing it; a view no visited state has keeps its alpha.
    */
  lemma {:induction false} ViewAlphaFromSharer(views: map<StateKey, AccessoryView>, states: map<StateKey, TitleState>,
                                               visits: seq<StateKey>, k: StateKey, initial: real)
    requires k in views
    requires forall i :: 0 <= i < |visits| ==> visits[i] in states
    ensures k in visits ==>
              exists j :: j in visits && j in views && views[j] == views[k]
                          && ViewAlpha(views, states, visits, k, initial) == states[j].alpha
    ensures (forall j :: j in visits && j in views ==> views[j] != views[k]) ==>
              ViewAlpha(views, states, visits, k, initial) == initial
  {
    if visits != [] {
      var last := visits[|visits| - 1];
      var prefix := visits[..|visits| - 1];
      assert visits == prefix + [last];
      ViewAlphaFromSharer(views, states, prefix, k, initial);
      if !(last in views && views[last] == views[k]) && k in visits {
        assert k in prefix;
        var j :| j in prefix && j in views && views[j] == views[k]
                 && ViewAlpha(views, states, prefix, k, initial) == states[j].alpha;
        assert j in visits;
      }
    }
  }

  /** A view that only state `k` has, among the visited states, holds `k`'s alpha once `k` was visited. */
  lemma {:induction false} ViewAlphaOwn(views: map<StateKey, AccessoryView>, states: map<StateKey, TitleState>,
                                        visits: seq<StateKey>, k: StateKey, initial: real)
    requires k in views && k in visits
    requires forall i :: 0 <= i < |visits| ==> visits[i] in states
    requires forall j :: j in visits && j in views && j != k ==> views[j] != views[k]
    ensures ViewAlpha(views, states, visits, k, initial) == states[k].alpha
  {
    ViewAlphaFromSharer(views, states, visits, k, initial);
  }

  class ExpandablePeerTitleContainerNode {
    /** One text node per state key, fixed at creation. */
    const textSubnodes: map<StateKey, ExpandablePeerTitleTextNode>
    var allAlignedBy: Option<StateKey>
    var isTransitioning: bool
    var lastMainLayout: Option<ExpandableTextNodeLayout>
    var accessoryViews: map<StateKey, AccessoryView>
    /** The mask of the fadable container node, if one was installed. */
    var fadableMask: Option<GradientFadeMask>

    /** The text nodes, as a set (the dictionary's values). */
    ghost const nodes: set<ExpandablePeerTitleTextNode>

    ghost function Nodes(): set<ExpandablePeerTitleTextNode>
    {
      nodes
    }

    ghost function Accessories(): set<AccessoryView>
      reads this`accessoryViews
    {
      accessoryViews.Values
    }

    /** Every state has a node of its own, and every node is in a valid state. */
    ghost predicate Valid()
      reads Nodes()`currentString, Nodes()`currentLayout, Nodes()`currentConstrainedSize, Nodes()`prevAlignment,
            Nodes()`fragments
    {
      && Owns()
      && Distinct()
      && (forall k :: k in textSubnodes ==> textSubnodes[k].Valid())
    }

    /** Every state's node is among the nodes. */
    ghost predicate Owns()
    {
      forall k :: k in textSubnodes ==> textSubnodes[k] in nodes
    }

    /** No two states share a node. */
    predicate Distinct()
    {
      forall a, b :: a in textSubnodes && b in textSubnodes && a != b ==> textSubnodes[a] != textSubnodes[b]
    }

    /**
      * `init(stateKeys:order:)`: a new text node for every distinct key; a
      * repeated key keeps the first node. The z-order `order` gives the
      * nodes is not modelled.
      */
    constructor(stateKeys: seq<StateKey>, coreText: CoreText, shaper: TextShaper, yProgress: real -> real)
      requires EasesOut(yProgress)
      ensures Valid()
      ensures textSubnodes.Keys == set k | k in stateKeys
      ensures forall k :: k in textSubnodes ==> fresh(textSubnodes[k])
      ensures forall k :: k in textSubnodes ==>
                var node := textSubnodes[k];
                node.currentString.None? && node.currentLayout.None? && node.coreText == coreText
                && node.shaper == shaper && node.yProgress == yProgress
      ensures allAlignedBy.None? && !isTransitioning && lastMainLayout.None?
      ensures accessoryViews == map[] && fadableMask.None?
    {
      var nodes: map<StateKey, ExpandablePeerTitleTextNode> := map[];
      var i := 0;
      while i < |stateKeys|
        invariant 0 <= i <= |stateKeys|
        invariant nodes.Keys == set k | k in stateKeys[..i]
        invariant forall k :: k in nodes ==> fresh(nodes[k])
        invariant forall a, b :: a in nodes && b in nodes && a != b ==> nodes[a] != nodes[b]
        invariant forall k :: k in nodes ==>
                    var node := nodes[k];
                    node.Valid() && node.currentString.None? && node.currentLayout.None?
                    && node.coreText == coreText && node.shaper == shaper && node.yProgress == yProgress
      {
        if stateKeys[i] !in nodes {
          var node := new ExpandablePeerTitleTextNode(coreText, shaper, yProgress);
          nodes := nodes[stateKeys[i] := node];
        }
        assert stateKeys[..i + 1] == stateKeys[..i] + [stateKeys[i]];
        i := i + 1;
      }
      assert stateKeys[..i] == stateKeys;
      textSubnodes := nodes;
      this.nodes := nodes.Values;
      allAlignedBy := None;
      isTransitioning := false;
      lastMainLayout := None;
      accessoryViews := map[];
      fadableMask := None;
    }

    /**
      * The layout all states share: the main state's expanded layout, when
      * a main state is given and has a node (a main state without a string
      * is laid out as the empty string).
      */
    function CommonLayout(states: map<StateKey, TitleState>, mainState: Option<StateKey>, cs: Size,
                          isAvatarExpanded: bool): Option<ExpandableTextNodeLayout>
      requires Owns()
      reads Nodes()`currentString, Nodes()`currentConstrainedSize, Nodes()`currentLayout, Nodes()`prevAlignment
    {
      if mainState.Some? && mainState.value in textSubnodes then
        var m := mainState.value;
        var title := if m in states then states[m].title else [];
        assert textSubnodes[m] in Nodes();
        Some(textSubnodes[m].LayoutFor(title, ForcedAlignment(isAvatarExpanded), cs))
      else None
    }

    /**
      * The layout each state with a node is updated with: the common layout
      * when there is one, the state's own expanded layout otherwise.
      */
    function StateLayouts(states: map<StateKey, TitleState>, common: Option<ExpandableTextNodeLayout>,
                          forced: Option<TextAlignment>, cs: Size): map<StateKey, ExpandableTextNodeLayout>
      requires Owns()
      reads Nodes()`currentString, Nodes()`currentConstrainedSize, Nodes()`currentLayout, Nodes()`prevAlignment
    {
      map k | k in states && k in textSubnodes ::
        if common.Some? then common.value else textSubnodes[k].LayoutFor(states[k].title, forced, cs)
    }

    /** What every node remembers between updates. */
    ghost function Caches(): map<StateKey, TextNodeCache>
      requires Owns()
      reads Nodes()`currentString, Nodes()`currentLayout, Nodes()`currentConstrainedSize, Nodes()`prevAlignment,
            Nodes()`fragments, Nodes()`prevExpansion, Nodes()`currentExpandedTotalSize, Nodes()`singleLineInfo
    {
      map k | k in textSubnodes :: textSubnodes[k].Cache()
    }

    /**
      * For every state in `sizes`, the remembered state `after[k]` of its
      * node is what updating it from `before[k]` with the state's string and
      * the layout `layouts[k]` leaves behind, reporting `sizes[k]`.
      */
    ghost predicate CachesUpdated(before: map<StateKey, TextNodeCache>, after: map<StateKey, TextNodeCache>,
                                  states: map<StateKey, TitleState>, layouts: map<StateKey, ExpandableTextNodeLayout>,
                                  f: real, needsUpdate: bool, sizes: map<StateKey, Size>)
    {
      forall k :: k in sizes ==>
        && k in textSubnodes && k in before && k in after && k in states && k in layouts
        && textSubnodes[k].UpdatedTo(before[k], after[k], states[k].title, layouts[k], f, needsUpdate, sizes[k])
    }

    /**
      * The node of every state in `sizes` was updated, from the remembered
      * state `caches[k]`, with the state's string and the layout
      * `layouts[k]`, and reported `sizes[k]`.
      */
    ghost predicate NodesUpdatedFrom(caches: map<StateKey, TextNodeCache>, states: map<StateKey, TitleState>,
                                     layouts: map<StateKey, ExpandableTextNodeLayout>, f: real, needsUpdate: bool,
                                     sizes: map<StateKey, Size>)
      requires Owns()
      reads Nodes()`currentString, Nodes()`currentLayout, Nodes()`currentConstrainedSize, Nodes()`prevAlignment,
            Nodes()`fragments, Nodes()`prevExpansion, Nodes()`currentExpandedTotalSize, Nodes()`singleLineInfo
    {
      CachesUpdated(caches, Caches(), states, layouts, f, needsUpdate, sizes)
    }

    /**
      * `update(states:mainState:constrainedSize:...)`. Every state with a
      * node is laid out (with the main state's layout when there is one)
      * and its node updated; the reported sizes are the result. When the
      * main state was among them, every such node is centred on the origin
      * with the main state's size. Unless a transition is running, every
      * state's alpha is given to its node and to its accessory view. Nodes
      * of states not passed in are left alone.
      */
    method Update(states: map<StateKey, TitleState>, mainState: Option<StateKey>, cs: Size, f: real,
                  isAvatarExpanded: bool, needsExpansionLayoutUpdate: bool, order: seq<StateKey>)
      returns (result: map<StateKey, Size>)
      requires Valid()
      requires Enumerates(order, states)
      modifies this`allAlignedBy, this`lastMainLayout, Nodes(), Accessories()`alpha
      ensures Valid()
      ensures allAlignedBy == mainState
      ensures lastMainLayout == if mainState.Some? then old(CommonLayout(states, mainState, cs, isAvatarExpanded))
                                else old(lastMainLayout)
      ensures result.Keys == states.Keys * textSubnodes.Keys
      ensures NodesUpdatedFrom(old(Caches()), states,
                               old(StateLayouts(states, CommonLayout(states, mainState, cs, isAvatarExpanded),
                                                ForcedAlignment(isAvatarExpanded), cs)),
                               f, needsExpansionLayoutUpdate, result)
      ensures forall k :: k in result ==>
                var node := textSubnodes[k];
                if mainState.Some? && mainState.value in result then
                  node.textFrame == CentredFrame(result[mainState.value])
                  && node.containerMask == ContainerFadeMask(node.currentLayout, node.LastFragmentFrame(), node.textFrame)
                else
                  node.textFrame == old(node.textFrame) && node.containerMask == old(node.containerMask)
      ensures forall k :: k in result ==>
                textSubnodes[k].alpha == if isTransitioning then old(textSubnodes[k].alpha) else states[k].alpha
      ensures forall k :: k in textSubnodes && k !in states ==> unchanged(textSubnodes[k])
      ensures forall k :: k in accessoryViews ==>
                accessoryViews[k].alpha == if isTransitioning then old(accessoryViews[k].alpha)
                                           else ViewAlpha(accessoryViews, states, order, k, old(accessoryViews[k].alpha))
    {
      result := LayOutAndUpdateNodes(states, mainState, cs, f, isAvatarExpanded, needsExpansionLayoutUpdate);
      ApplyAlphasUnlessTransitioning(states, order);
    }

    /** The third loop of `update`, which is skipped while a transition is running. */
    method ApplyAlphasUnlessTransitioning(states: map<StateKey, TitleState>, order: seq<StateKey>)
      requires Owns() && Distinct()
      requires Enumerates(order, states)
      modifies Nodes()`alpha, Accessories()`alpha
      ensures forall k :: k in textSubnodes ==>
                textSubnodes[k].alpha == if !isTransitioning && k in states then states[k].alpha
                                         else old(textSubnodes[k].alpha)
      ensures forall k :: k in accessoryViews ==>
                accessoryViews[k].alpha == if isTransitioning then old(accessoryViews[k].alpha)
                                           else ViewAlpha(accessoryViews, states, order, k, old(accessoryViews[k].alpha))
      ensures Caches() == old(Caches())
      ensures forall k :: k in textSubnodes ==>
                textSubnodes[k].textFrame == old(textSubnodes[k].textFrame)
                && textSubnodes[k].containerMask == old(textSubnodes[k].containerMask)
    {
      if !isTransitioning {
        ApplyAlphas(states, order);
      }
    }

    /**
      * The layout part of `update`: the main state is laid out, then every
      * state with a node is laid out and its node updated, and the nodes
      * are centred on the main state's size when it was among them.
      */
    method LayOutAndUpdateNodes(states: map<StateKey, TitleState>, mainState: Option<StateKey>, cs: Size, f: real,
                                isAvatarExpanded: bool, needsExpansionLayoutUpdate: bool)
      returns (result: map<StateKey, Size>)
      requires Valid()
      modifies this`allAlignedBy, this`lastMainLayout,
               Nodes()`currentString, Nodes()`currentLayout, Nodes()`currentConstrainedSize, Nodes()`prevAlignment,
               Nodes()`fragments, Nodes()`prevExpansion, Nodes()`currentExpandedTotalSize, Nodes()`singleLineInfo,
               Nodes()`textFrame, Nodes()`containerMask
      ensures Valid()
      ensures allAlignedBy == mainState
      ensures lastMainLayout == if mainState.Some? then old(CommonLayout(states, mainState, cs, isAvatarExpanded))
                                else old(lastMainLayout)
      ensures result.Keys == states.Keys * textSubnodes.Keys
      ensures NodesUpdatedFrom(old(Caches()), states,
                               old(StateLayouts(states, CommonLayout(states, mainState, cs, isAvatarExpanded),
                                                ForcedAlignment(isAvatarExpanded), cs)),
                               f, needsExpansionLayoutUpdate, result)
      ensures forall k :: k in result ==>
                var node := textSubnodes[k];
                if mainState.Some? && mainState.value in result then
                  node.textFrame == CentredFrame(result[mainState.value])
                  && node.containerMask == ContainerFadeMask(node.currentLayout, node.LastFragmentFrame(), node.textFrame)
                else
                  node.textFrame == old(node.textFrame) && node.containerMask == old(node.containerMask)
      ensures forall k :: k in textSubnodes && k !in states ==> unchanged(textSubnodes[k])
      ensures forall k :: k in textSubnodes ==> textSubnodes[k].alpha == old(textSubnodes[k].alpha)
      ensures forall k :: k in accessoryViews ==> accessoryViews[k].alpha == old(accessoryViews[k].alpha)
    {
      var forced := ForcedAlignment(isAvatarExpanded);
      ghost var caches := Caches();
      ghost var layouts := StateLayouts(states, CommonLayout(states, mainState, cs, isAvatarExpanded), forced, cs);
      var commonExpandedLayout := LayOutMainState(states, mainState, cs, isAvatarExpanded);
      assert Caches() == caches && StateLayouts(states, commonExpandedLayout, forced, cs) == layouts;
      result := UpdateAndPlaceNodes(states, mainState, commonExpandedLayout, forced, cs, f, needsExpansionLayoutUpdate);
      assert CachesUpdated(caches, Caches(), states, layouts, f, needsExpansionLayoutUpdate, result);
    }

    /**
      * The start of `update`: the states are aligned by the main state, and
      * the main state, when it has a node, is laid out; that layout is the
      * one all states share and the one remembered.
      */
    method LayOutMainState(states: map<StateKey, TitleState>, mainState: Option<StateKey>, cs: Size,
                           isAvatarExpanded: bool)
      returns (common: Option<ExpandableTextNodeLayout>)
      requires Valid()
      modifies this`allAlignedBy, this`lastMainLayout
      ensures common == CommonLayout(states, mainState, cs, isAvatarExpanded)
      ensures allAlignedBy == mainState
      ensures lastMainLayout == if mainState.Some? then common else old(lastMainLayout)
    {
      common := None;
      allAlignedBy := mainState;
      if mainState.Some? {
        if mainState.value in textSubnodes {
          var m: StateKey := mainState.value;
          var title := if m in states then states[m].title else [];
          var layout := textSubnodes[m].GetExpandedLayout(title, ForcedAlignment(isAvatarExpanded), cs);
          common := Some(layout);
        }
        lastMainLayout := common;
      }
    }

    /**
      * The first two loops of `update`: every state with a node is laid out
      * and its node updated; when the main state was among them, their
      * nodes are then centred on the main state's size.
      */
    method UpdateAndPlaceNodes(states: map<StateKey, TitleState>, mainState: Option<StateKey>,
                               common: Option<ExpandableTextNodeLayout>, forced: Option<TextAlignment>, cs: Size,
                               f: real, needsExpansionLayoutUpdate: bool)
      returns (result: map<StateKey, Size>)
      requires Valid()
      modifies Nodes()`currentString, Nodes()`currentLayout, Nodes()`currentConstrainedSize, Nodes()`prevAlignment,
               Nodes()`fragments, Nodes()`prevExpansion, Nodes()`currentExpandedTotalSize, Nodes()`singleLineInfo,
               Nodes()`textFrame, Nodes()`containerMask
      ensures Valid()
      ensures result.Keys == states.Keys * textSubnodes.Keys
      ensures NodesUpdatedFrom(old(Caches()), states, old(StateLayouts(states, common, forced, cs)),
                               f, needsExpansionLayoutUpdate, result)
      ensures forall k :: k in result ==>
                var node := textSubnodes[k];
                if mainState.Some? && mainState.value in result then
                  node.textFrame == CentredFrame(result[mainState.value])
                  && node.containerMask == ContainerFadeMask(node.currentLayout, node.LastFragmentFrame(), node.textFrame)
                else
                  node.textFrame == old(node.textFrame) && node.containerMask == old(node.containerMask)
      ensures forall k :: k in textSubnodes && k !in states ==> unchanged(textSubnodes[k])
    {
      ghost var caches := Caches();
      ghost var layouts := StateLayouts(states, common, forced, cs);
      result := UpdateNodes(states, common, forced, cs, f, needsExpansionLayoutUpdate);
      if mainState.Some? && mainState.value in result {
        PlaceNodes(states.Keys, CentredFrame(result[mainState.value]));
      }
      assert NodesUpdatedFrom(caches, states, layouts, f, needsExpansionLayoutUpdate, result);
    }

    /**
      * One pass of the first loop of `update`, for a state `key` that has a
      * node: the node is updated, and what the other nodes remember stays.
      */
    method UpdateState(key: StateKey, states: map<StateKey, TitleState>, common: Option<ExpandableTextNodeLayout>,
                       forced: Option<TextAlignment>, cs: Size, f: real, needsExpansionLayoutUpdate: bool,
                       ghost caches: map<StateKey, TextNodeCache>, ghost layouts: map<StateKey, ExpandableTextNodeLayout>)
      returns (size: Size)
      requires Valid()
      requires key in textSubnodes && key in states
      requires key in caches && textSubnodes[key].Cache() == caches[key]
      requires key in layouts
      requires layouts[key] == if common.Some? then common.value
                               else textSubnodes[key].LayoutFor(states[key].title, forced, cs)
      modifies Nodes()`currentString, Nodes()`currentLayout, Nodes()`currentConstrainedSize, Nodes()`prevAlignment,
               Nodes()`fragments, Nodes()`prevExpansion, Nodes()`currentExpandedTotalSize, Nodes()`singleLineInfo
      ensures Valid()
      ensures textSubnodes[key].UpdatedFrom(caches[key], states[key].title, layouts[key], f,
                                            needsExpansionLayoutUpdate, size)
      ensures Caches() == old(Caches())[key := textSubnodes[key].Cache()]
      ensures forall k :: k in textSubnodes && k != key ==> unchanged(textSubnodes[k])
    {
      ghost var before := Caches();
      var node := textSubnodes[key];
      size := UpdateStateNode(node, states[key].title, common, forced, cs, f, needsExpansionLayoutUpdate);
      ghost var after := before[key := node.Cache()];
      forall k | k in textSubnodes
        ensures textSubnodes[k].Cache() == after[k]
      {
        if k != key {
          assert textSubnodes[k] != node;
        }
      }
      assert Caches() == after;
    }

    /** One more state updated: the states done before keep what they remember. */
    lemma CachesUpdatedExtend(before: map<StateKey, TextNodeCache>, mid: map<StateKey, TextNodeCache>,
                              states: map<StateKey, TitleState>, layouts: map<StateKey, ExpandableTextNodeLayout>,
                              f: real, needsUpdate: bool, done: map<StateKey, Size>,
                              key: StateKey, updated: TextNodeCache, size: Size)
      requires CachesUpdated(before, mid, states, layouts, f, needsUpdate, done)
      requires key !in done && key in textSubnodes && key in before && key in mid && key in states && key in layouts
      requires textSubnodes[key].UpdatedTo(before[key], updated, states[key].title, layouts[key], f, needsUpdate, size)
      ensures CachesUpdated(before, mid[key := updated], states, layouts, f, needsUpdate, done[key := size])
    {
    }

    /** The first loop of `update`: every state with a node is laid out and its node updated. */
    method UpdateNodes(states: map<StateKey, TitleState>, common: Option<ExpandableTextNodeLayout>,
                       forced: Option<TextAlignment>, cs: Size, f: real, needsExpansionLayoutUpdate: bool)
      returns (result: map<StateKey, Size>)
      requires Valid()
      modifies Nodes()`currentString, Nodes()`currentLayout, Nodes()`currentConstrainedSize, Nodes()`prevAlignment,
               Nodes()`fragments, Nodes()`prevExpansion, Nodes()`currentExpandedTotalSize, Nodes()`singleLineInfo
      ensures Valid()
      ensures result.Keys == states.Keys * textSubnodes.Keys
      ensures NodesUpdatedFrom(old(Caches()), states, old(StateLayouts(states, common, forced, cs)),
                               f, needsExpansionLayoutUpdate, result)
      ensures forall k :: k in textSubnodes && k !in states ==> unchanged(textSubnodes[k])
    {
      ghost var caches := Caches();
      ghost var layouts := StateLayouts(states, common, forced, cs);
      result := map[];
      var remaining := states.Keys;
      while remaining != {}
        invariant remaining <= states.Keys
        invariant result.Keys == (states.Keys - remaining) * textSubnodes.Keys
        invariant Valid()
        invariant NodesUpdatedFrom(caches, states, layouts, f, needsExpansionLayoutUpdate, result)
        invariant forall k :: k in textSubnodes && k !in result ==> unchanged(textSubnodes[k])
        decreases remaining
      {
        SomeKey(remaining);
        var key :| key in remaining;
        if key in textSubnodes {
          ghost var mid := Caches();
          var size := UpdateState(key, states, common, forced, cs, f, needsExpansionLayoutUpdate, caches, layouts);
          CachesUpdatedExtend(caches, mid, states, layouts, f, needsExpansionLayoutUpdate, result, key,
                              textSubnodes[key].Cache(), size);
          result := result[key := size];
        }
        remaining := remaining - {key};
      }
    }

    /** The second loop of `update`: the node of every state in `keys` gets the frame `frame`. */
    method PlaceNodes(keys: set<StateKey>, frame: Rect)
      requires Valid()
      modifies Nodes()`textFrame, Nodes()`containerMask
      ensures Valid()
      ensures forall k :: k in keys && k in textSubnodes ==>
                var node := textSubnodes[k];
                node.textFrame == frame
                && node.containerMask == ContainerFadeMask(node.currentLayout, node.LastFragmentFrame(), frame)
      ensures forall k :: k in textSubnodes && k !in keys ==> unchanged(textSubnodes[k])
    {
      var remaining := keys;
      while remaining != {}
        invariant remaining <= keys
        invariant Valid()
        invariant forall k :: k in keys - remaining && k in textSubnodes ==>
                    var node := textSubnodes[k];
                    node.textFrame == frame
                    && node.containerMask == ContainerFadeMask(node.currentLayout, node.LastFragmentFrame(), frame)
        invariant forall k :: k in textSubnodes && k !in keys - remaining ==> unchanged(textSubnodes[k])
        decreases remaining
      {
        SomeKey(remaining);
        var key :| key in remaining;
        if key in textSubnodes {
          textSubnodes[key].UpdateTextFrame(frame);
        }
        remaining := remaining - {key};
      }
    }

    /**
      * One pass of the third loop of `update`: the alpha goes to the node
      * of state `key` and to its accessory view, which every state sharing
      * that view sees.
      */
    method ApplyStateAlpha(key: StateKey, alpha: real)
      requires Owns() && Distinct()
      modifies Nodes()`alpha, Accessories()`alpha
      ensures forall k :: k in textSubnodes ==>
                textSubnodes[k].alpha == if k == key then alpha else old(textSubnodes[k].alpha)
      ensures forall k :: k in accessoryViews ==>
                accessoryViews[k].alpha == if key in accessoryViews && accessoryViews[k] == accessoryViews[key] then alpha
                                           else old(accessoryViews[k].alpha)
    {
      if key in textSubnodes {
        textSubnodes[key].alpha := alpha;
      }
      if key in accessoryViews {
        accessoryViews[key].alpha := alpha;
      }
    }

    /**
      * The third loop of `update`: the states, in the order the dictionary
      * enumerates them, give their alpha to their node and to their
      * accessory view.
      */
    method ApplyAlphas(states: map<StateKey, TitleState>, order: seq<StateKey>)
      requires Owns() && Distinct()
      requires Enumerates(order, states)
      modifies Nodes()`alpha, Accessories()`alpha
      ensures forall k :: k in textSubnodes ==>
                textSubnodes[k].alpha == if k in states then states[k].alpha else old(textSubnodes[k].alpha)
      ensures forall k :: k in accessoryViews ==>
                accessoryViews[k].alpha == ViewAlpha(accessoryViews, states, order, k, old(accessoryViews[k].alpha))
    {
      var i := 0;
      while i < |order|
        invariant 0 <= i <= |order|
        invariant forall k :: k in textSubnodes ==>
                    textSubnodes[k].alpha == if k in order[..i] then states[k].alpha else old(textSubnodes[k].alpha)
        invariant forall k :: k in accessoryViews ==>
                    accessoryViews[k].alpha == ViewAlpha(accessoryViews, states, order[..i], k, old(accessoryViews[k].alpha))
      {
        assert order[..i + 1] == order[..i] + [order[i]];
        assert order[..i + 1][..i] == order[..i];
        ApplyStateAlpha(order[i], states[order[i]].alpha);
        i := i + 1;
      }
      assert order[..i] == order;
    }

    /**
      * The single line `updateFading` takes its direction from: the states
      * must be aligned by a state whose node holds a string; the line is the
      * one the node remembers, or else the first line of that string laid
      * out without bounds.
      */
    function AlignedSingleLine(): (r: Option<LayoutLine>)
      requires Owns()
      reads this`allAlignedBy, Nodes()`currentString, Nodes()`singleLineInfo
      ensures r.Some? ==> allAlignedBy.Some? && allAlignedBy.value in textSubnodes
                          && textSubnodes[allAlignedBy.value].currentString.Some?
      ensures r.Some? && textSubnodes[allAlignedBy.value].singleLineInfo.None? ==>
                r == textSubnodes[allAlignedBy.value].SingleLine(textSubnodes[allAlignedBy.value].currentString.value)
    {
      if allAlignedBy.Some? && allAlignedBy.value in textSubnodes then
        var key := allAlignedBy.value;
        var node := textSubnodes[key];
        assert node in Nodes() by { assert Owns(); assert key in textSubnodes; }
        if node.currentString.None? then None
        else if node.singleLineInfo.Some? then node.singleLineInfo
        else node.SingleLine(node.currentString.value)
      else None
    }

    /** The first statement of `updateFading`: every node recomputes its container mask. */
    method UpdateContainerFadings()
      requires Valid()
      modifies Nodes()`containerMask
      ensures Valid()
      ensures forall k :: k in textSubnodes ==>
                var node := textSubnodes[k];
                node.containerMask == ContainerFadeMask(node.currentLayout, node.LastFragmentFrame(), node.textFrame)
    {
      var remaining := textSubnodes.Keys;
      while remaining != {}
        invariant remaining <= textSubnodes.Keys
        invariant Valid()
        invariant forall k :: k in textSubnodes && k !in remaining ==>
                    var node := textSubnodes[k];
                    node.containerMask == ContainerFadeMask(node.currentLayout, node.LastFragmentFrame(), node.textFrame)
        decreases remaining
      {
        SomeKey(remaining);
        var key :| key in remaining;
        textSubnodes[key].UpdateContainerFading();
        remaining := remaining - {key};
      }
    }

    /**
      * `updateFading(solidWidth:containerWidth:height:offset:)`: every node
      * recomputes its container mask; then the fadable container gets the
      * gradient mask for the direction of the aligned state's single line.
      * The mask installed earlier is detached first, so when there is no
      * such line the fadable container is left without a mask.
      */
    method UpdateFading(solidWidth: real, containerWidth: real, height: real, offset: real)
      requires Valid()
      modifies Nodes()`containerMask, this`fadableMask
      ensures Valid()
      ensures forall k :: k in textSubnodes ==>
                var node := textSubnodes[k];
                node.containerMask == ContainerFadeMask(node.currentLayout, node.LastFragmentFrame(), node.textFrame)
      ensures fadableMask == if old(AlignedSingleLine()).Some?
                             then Some(FadingMask(old(AlignedSingleLine()).value.isRTL, solidWidth, containerWidth,
                                                  height, offset))
                             else None
    {
      ghost var line := AlignedSingleLine();
      UpdateContainerFadings();
      assert AlignedSingleLine() == line;
      fadableMask := None;
      if allAlignedBy.None? || allAlignedBy.value !in textSubnodes {
        return;
      }
      var node := textSubnodes[allAlignedBy.value];
      if node.currentString.None? {
        return;
      }
      var singleLineInfo := node.singleLineInfo;
      if singleLineInfo.None? {
        var lines := GetLayoutLines(node.coreText, node.currentString.value, Unbounded, NoLimit);
        if |lines| == 0 {
          return;
        }
        singleLineInfo := Some(lines[0]);
      }
      fadableMask := Some(FadingMask(singleLineInfo.value.isRTL, solidWidth, containerWidth, height, offset));
    }

    /** `addAccessory(for:accessoryView:)`: the view replaces any earlier one of the state. */
    method AddAccessory(state: StateKey, accessoryView: AccessoryView)
      modifies this`accessoryViews
      ensures accessoryViews == old(accessoryViews)[state := accessoryView]
    {
      accessoryViews := accessoryViews[state := accessoryView];
    }
  }
}
