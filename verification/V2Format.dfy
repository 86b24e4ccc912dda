/**
 Format version 2, by way of version 4: the writer downgrades, the reader upgrades
 (graph/src/io/VersionTwoMCGWriter.cpp, graph/src/io/VersionTwoMCGReader.cpp).
 */
module V2Format {
  import opened Lists
  import opened Optional
  import opened V4Format
  import opened V4Reader

  /** A node under its function name.  No metadata is null here. */
  datatype V2Node = V2Node(callees: seq<string>, callers: seq<string>, hasBody: Field<bool>, isVirtual: bool,
                           doesOverride: bool, overrides: seq<string>, overriddenBy: seq<string>, meta: Option<Meta>)

  type V2Graph = map<string, V2Node>

  const NO_META := Meta(None, None, map[])

  function MetaOf(jNode: V4Node): Meta {
    if jNode.meta.Given? then jNode.meta.value else NO_META
  }

  /** Lists every element of a set once. */
  ghost predicate Enumerated(s: seq<string>, elements: set<string>) {
    Distinct(s) && forall x :: x in s <==> x in elements
  }

  function ElementsOf(s: seq<string>): set<string> {
    set x | x in s
  }

  ghost function CallersIn(j: V4Graph, k: string): set<string> {
    set u | u in j && k in j[u].callees
  }

  // ---------------------------------------------------------------- downgrading

  /** Where version 2 keeps the origin: with the file properties, if there are any or if it is known. */
  function OriginInMeta(meta: Meta, origin: Option<string>): Meta {
    match meta.fileProperties
    case Some(p) => meta.(fileProperties := Some(p.(origin := Some(if origin.Some? then origin.value else ""))))
    case None => if origin.Some? then meta.(fileProperties := Some(FileProperties(origin, map[]))) else meta
  }

  function DowngradedNode(jNode: V4Node, callees: seq<string>, callers: seq<string>): V2Node {
    var meta := OriginInMeta(MetaOf(jNode), OriginOf(jNode));
    var over := if meta.overrideMD.Some? then meta.overrideMD.value else Overrides([], []);
    var rest := meta.(overrideMD := None);
    V2Node(callees, callers, jNode.hasBody, meta.overrideMD.Some?, over.overrides != [], over.overrides,
           over.overriddenBy, if rest == NO_META then None else Some(rest))
  }

  /** Names and entries agree, and the callers are the callees turned round. */
  ghost predicate Downgraded(j: V4Graph, h: V2Graph) {
    && h.Keys == j.Keys
    && forall k :: k in j ==>
         && h[k] == DowngradedNode(j[k], h[k].callees, h[k].callers)
         && Enumerated(h[k].callees, j[k].callees)
         && Enumerated(h[k].callers, CallersIn(j, k))
  }

  method KeysInAnyOrder(keys: set<string>) returns (r: seq<string>)
    ensures Enumerated(r, keys)
  {
    r := [];
    var todo := keys;
    while todo != {}
      invariant todo <= keys && Enumerated(r, keys - todo)
    {
      var k :| k in todo;
      r, todo := r + [k], todo - {k};
    }
  }

  /** Callees called by one of the given callers. */
  ghost predicate CallersWritten(j: V4Graph, h: V2Graph, callers: set<string>) {
    && h.Keys == j.Keys
    && forall k :: k in j ==>
         && h[k] == DowngradedNode(j[k], h[k].callees, h[k].callers)
         && Enumerated(h[k].callees, j[k].callees)
         && Enumerated(h[k].callers, CallersIn(j, k) * callers)
  }

  /** The callees of a node: an object with one key each, or a list of names. */
  datatype Callees = Keys(keys: set<string>) | Names(names: seq<string>)

  /** A node as a JSON object with the fields of both versions. */
  datatype JsonNode = JsonNode(functionName: Field<string>, origin: Field<string>, hasBody: Field<bool>,
                               callees: Field<Callees>, callers: Field<seq<string>>, isVirtual: Field<bool>,
                               doesOverride: Field<bool>, overrides: Field<seq<string>>,
                               overriddenBy: Field<seq<string>>, meta: Field<Meta>)

  function FromV4(n: V4Node): JsonNode {
    JsonNode(n.functionName, n.origin, n.hasBody, Given(Keys(n.callees)), Missing, Missing, Missing, Missing, Missing,
             n.meta)
  }

  function FromV2(n: V2Node): JsonNode {
    JsonNode(Missing, Missing, n.hasBody, Given(Names(n.callees)), Given(n.callers), Given(n.isVirtual),
             Given(n.doesOverride), Given(n.overrides), Given(n.overriddenBy),
             if n.meta.Some? then Given(n.meta.value) else Field.Null)
  }

  /** Rewrites one node in place, field by field. */
  method DowngradeNode(n: V4Node) returns (jNode: JsonNode, callees: seq<string>)
    ensures Enumerated(callees, n.callees) && jNode == FromV2(DowngradedNode(n, callees, []))
  {
    hide Enumerated;
    jNode := FromV4(n);
    jNode := jNode.(functionName := Missing);
    callees := KeysInAnyOrder(jNode.callees.value.keys);
    jNode := jNode.(callees := Missing);
    jNode := jNode.(callers := Given([]));
    jNode := jNode.(callees := Given(Names(callees)));
    var jMeta := if jNode.meta.Given? then jNode.meta.value else NO_META;
    if jMeta.fileProperties.Some? {
      var origin := if jNode.origin.Given? then jNode.origin.value else "";
      jMeta := jMeta.(fileProperties := Some(jMeta.fileProperties.value.(origin := Some(origin))));
    } else if jNode.origin.Given? {
      jMeta := jMeta.(fileProperties := Some(FileProperties(None, map[])));
      jMeta := jMeta.(fileProperties := Some(jMeta.fileProperties.value.(origin := Some(jNode.origin.value))));
    }
    jNode := jNode.(origin := Missing);
    jNode := jNode.(isVirtual := Given(false));
    jNode := jNode.(doesOverride := Given(false));
    jNode := jNode.(overrides := Given([]));
    jNode := jNode.(overriddenBy := Given([]));
    if jMeta.overrideMD.Some? {
      jNode := jNode.(isVirtual := Given(true));
      var jOverrideMD := jMeta.overrideMD.value;
      if jOverrideMD.overrides != [] {
        jNode := jNode.(doesOverride := Given(true));
        jNode := jNode.(overrides := Given(jOverrideMD.overrides));
      }
      jNode := jNode.(overriddenBy := Given(jOverrideMD.overriddenBy));
      jMeta := jMeta.(overrideMD := None);
    }
    jNode := jNode.(meta := if jMeta == NO_META then Field.Null else Given(jMeta));
  }

  /** Rewrites one node in place; fails if its file properties lack an origin. */
  method UpgradeNode(name: string, n: V2Node) returns (ok: bool, jNode: JsonNode)
    ensures ok <==> HasOriginField(n)
    ensures ok ==> jNode == FromV4(UpgradedNode(name, n))
  {
    jNode := FromV2(n);
    jNode := jNode.(functionName := Given(name));
    var jNewCallees: set<string> := {};
    var jCallees := jNode.callees.value.names;
    for i := 0 to |jCallees|
      invariant jNewCallees == ElementsOf(jCallees[..i])
    {
      jNewCallees := jNewCallees + {jCallees[i]};
      assert jCallees[..i + 1] == jCallees[..i] + [jCallees[i]];
    }
    assert jCallees[..|jCallees|] == jCallees;
    jNode := jNode.(callees := Missing);
    jNode := jNode.(callers := Missing);
    jNode := jNode.(callees := Given(Keys(jNewCallees)));
    var hasProperties := jNode.meta.Given? && jNode.meta.value.fileProperties.Some?;
    if hasProperties && jNode.meta.value.fileProperties.value.origin.None? {
      return false, jNode;
    }
    if hasProperties && jNode.meta.value.fileProperties.value.origin.value != "" {
      var jMeta := jNode.meta.value;
      jNode := jNode.(origin := Given(jMeta.fileProperties.value.origin.value));
      jMeta := jMeta.(fileProperties := Some(jMeta.fileProperties.value.(origin := None)));
      jNode := jNode.(meta := Given(jMeta));
    } else {
      jNode := jNode.(origin := Field.Null);
    }
    var definesOverrideData := jNode.overrides.value != [] || jNode.overriddenBy.value != [];
    if jNode.isVirtual.value || definesOverrideData {
      var jMeta := if jNode.meta.Given? then jNode.meta.value else NO_META;
      jMeta := jMeta.(overrideMD := Some(Overrides(jNode.overrides.value, jNode.overriddenBy.value)));
      jNode := jNode.(meta := Given(jMeta));
    }
    jNode := jNode.(isVirtual := Missing);
    jNode := jNode.(doesOverride := Missing);
    jNode := jNode.(overrides := Missing);
    jNode := jNode.(overriddenBy := Missing);
    ok := true;
  }

  /** The fields of version 2, all of which are there. */
  function AsV2(j: JsonNode): V2Node
    requires j.callees.Given? && j.callees.value.Names? && j.callers.Given? && j.isVirtual.Given?
    requires j.doesOverride.Given? && j.overrides.Given? && j.overriddenBy.Given?
  {
    V2Node(j.callees.value.names, j.callers.value, j.hasBody, j.isVirtual.value, j.doesOverride.value,
           j.overrides.value, j.overriddenBy.value, if j.meta.Given? then Some(j.meta.value) else None)
  }

  /** The fields of version 4. */
  function AsV4(j: JsonNode): V4Node
    requires j.callees.Given? && j.callees.value.Keys?
  {
    V4Node(j.functionName, j.origin, j.hasBody, j.callees.value.keys, j.meta)
  }

  method DowngradeNodes(j: V4Graph) returns (h: V2Graph)
    ensures CallersWritten(j, h, {})
  {
    h := map[];
    var todo := j.Keys;
    while todo != {}
      invariant todo <= j.Keys && h.Keys == j.Keys - todo
      invariant forall k :: k in h ==>
                  h[k] == DowngradedNode(j[k], h[k].callees, []) && Enumerated(h[k].callees, j[k].callees)
    {
      var k :| k in todo;
      var jNode, callees := DowngradeNode(j[k]);
      h := h[k := AsV2(jNode)];
      todo := todo - {k};
    }
  }

  /** All names as callees of known functions; the first so many of one caller done. */
  ghost predicate CallersHalfWritten(j: V4Graph, h: V2Graph, callers: set<string>, u: string, first: set<string>) {
    && h.Keys == j.Keys
    && forall k :: k in j ==> NodeWritten(j[k], h[k], CallersIn(j, k) * callers + if k in first then {u} else {})
  }

  ghost predicate NodeWritten(node: V4Node, written: V2Node, callers: set<string>) {
    && written == DowngradedNode(node, written.callees, written.callers)
    && Enumerated(written.callees, node.callees)
    && Enumerated(written.callers, callers)
  }

  /** Writes one function into the caller lists of its callees. */
  method WriteCallersOf(j: V4Graph, h0: V2Graph, ghost callers: set<string>, u: string) returns (h: V2Graph)
    requires CallersWritten(j, h0, callers) && u in j && u !in callers
    requires forall c :: c in j[u].callees ==> c in j
    ensures CallersWritten(j, h, callers + {u})
  {
    hide DowngradedNode, Enumerated, CallersIn;
    h := h0;
    var callees := h0[u].callees;
    assert Enumerated(callees, j[u].callees);
    CalleesContents(callees, j[u].callees);
    StartsHalf(j, h, callers, u, callees);
    for i := 0 to |callees|
      invariant CallersHalfWritten(j, h, callers, u, ElementsOf(callees[..i]))
      invariant forall k :: k in j ==> k in h && h[k].callees == h0[k].callees
    {
      var callee := callees[i];
      OneMoreCallee(j, h, callers, u, callees, i);
      h := h[callee := h[callee].(callers := h[callee].callers + [u])];
    }
    assert callees[..|callees|] == callees;
    EndsHalf(j, h, callers, u);
  }

  lemma CalleesContents(callees: seq<string>, s: set<string>)
    requires Enumerated(callees, s)
    ensures forall i :: 0 <= i < |callees| ==> callees[i] in s && callees[i] !in callees[..i]
    ensures ElementsOf(callees) == s
  {
  }

  lemma StartsHalf(j: V4Graph, h: V2Graph, callers: set<string>, u: string, callees: seq<string>)
    requires CallersWritten(j, h, callers)
    ensures CallersHalfWritten(j, h, callers, u, ElementsOf(callees[..0]))
  {
  }

  lemma EndsHalf(j: V4Graph, h: V2Graph, callers: set<string>, u: string)
    requires u in j && CallersHalfWritten(j, h, callers, u, j[u].callees)
    ensures CallersWritten(j, h, callers + {u})
  {
    hide DowngradedNode, Enumerated;
    forall k | k in j
      ensures Enumerated(h[k].callers, CallersIn(j, k) * (callers + {u}))
    {
      assert CallersIn(j, k) * (callers + {u}) == CallersIn(j, k) * callers + if k in j[u].callees then {u} else {};
    }
  }

  lemma OneMoreCallee(j: V4Graph, h: V2Graph, callers: set<string>, u: string, callees: seq<string>, i: nat)
    requires i < |callees| && callees[i] in j && callees[i] !in callees[..i] && u !in callers
    requires CallersHalfWritten(j, h, callers, u, ElementsOf(callees[..i]))
    ensures callees[i] in h
    ensures CallersHalfWritten(j, h[callees[i] := h[callees[i]].(callers := h[callees[i]].callers + [u])], callers, u,
                               ElementsOf(callees[..i + 1]))
  {
    hide NodeWritten, CallersIn;
    var callee, done, more := callees[i], ElementsOf(callees[..i]), ElementsOf(callees[..i + 1]);
    assert callees[..i + 1] == callees[..i] + [callee];
    assert more == done + {callee};
    var s := CallersIn(j, callee) * callers;
    assert s + {} == s;
    OneMoreCaller(j[callee], h[callee], s, u);
  }

  lemma OneMoreCaller(node: V4Node, written: V2Node, callers: set<string>, u: string)
    requires NodeWritten(node, written, callers) && u !in callers
    ensures NodeWritten(node, written.(callers := written.callers + [u]), callers + {u})
  {
    Appended(written.callers, callers, u);
    hide Enumerated;
  }

  lemma Appended(s: seq<string>, elements: set<string>, x: string)
    requires Enumerated(s, elements) && x !in elements
    ensures Enumerated(s + [x], elements + {x})
  {
  }

  /** The whole downgrade.  Every callee has to have an entry of its own. */
  method Downgrade(j: V4Graph) returns (h: V2Graph)
    requires forall k, c :: k in j && c in j[k].callees ==> c in j
    ensures Downgraded(j, h)
  {
    hide DowngradedNode, Enumerated;
    h := DowngradeNodes(j);
    var todo := j.Keys;
    assert j.Keys - j.Keys == {};
    while todo != {}
      invariant todo <= j.Keys && CallersWritten(j, h, j.Keys - todo)
    {
      var k :| k in todo;
      h := WriteCallersOf(j, h, j.Keys - todo, k);
      assert j.Keys - (todo - {k}) == j.Keys - todo + {k};
      todo := todo - {k};
    }
    forall k | k in j
      ensures CallersIn(j, k) * (j.Keys - {}) == CallersIn(j, k)
    {
    }
  }

  // ---------------------------------------------------------------- upgrading

  /** Reading fails at file properties without an origin. */
  predicate HasOriginField(jNode: V2Node) {
    jNode.meta.Some? && jNode.meta.value.fileProperties.Some? ==> jNode.meta.value.fileProperties.value.origin.Some?
  }

  function OriginOut(jNode: V2Node): Field<string> {
    if jNode.meta.Some? && jNode.meta.value.fileProperties.Some?
       && jNode.meta.value.fileProperties.value.origin.Some? && jNode.meta.value.fileProperties.value.origin.value != ""
    then Given(jNode.meta.value.fileProperties.value.origin.value)
    else Field.Null
  }

  function UpgradedMeta(jNode: V2Node): Field<Meta> {
    var meta := if jNode.meta.Some? then jNode.meta.value else NO_META;
    var without :=
      if OriginOut(jNode).Given? then meta.(fileProperties := Some(meta.fileProperties.value.(origin := None)))
      else meta;
    if jNode.isVirtual || jNode.overrides != [] || jNode.overriddenBy != [] then
      Given(without.(overrideMD := Some(Overrides(jNode.overrides, jNode.overriddenBy))))
    else if jNode.meta.Some? then Given(without) else Field.Null
  }

  function UpgradedNode(name: string, jNode: V2Node): V4Node {
    V4Node(Given(name), OriginOut(jNode), jNode.hasBody, ElementsOf(jNode.callees), UpgradedMeta(jNode))
  }

  method Upgrade(h: V2Graph) returns (r: Option<V4Graph>)
    ensures r.Some? <==> forall k :: k in h ==> HasOriginField(h[k])
    ensures r.Some? <==> forall k | k in h && h[k].meta.Some? && h[k].meta.value.fileProperties.Some? ::
                           h[k].meta.value.fileProperties.value.origin.Some?
    ensures r.Some? ==> r.value == map k | k in h :: UpgradedNode(k, h[k])
  {
    hide UpgradedNode;
    var jNodes: V4Graph := map[];
    var todo := h.Keys;
    while todo != {}
      invariant todo <= h.Keys && jNodes == map k | k in h && k !in todo :: UpgradedNode(k, h[k])
      invariant forall k :: k in h && k !in todo ==> HasOriginField(h[k])
    {
      var k :| k in todo;
      var ok, jNode := UpgradeNode(k, h[k]);
      if !ok {
        return None;
      }
      jNodes := jNodes[k := AsV4(jNode)];
      todo := todo - {k};
    }
    r := Some(jNodes);
  }

  // ---------------------------------------------------------------- there and back

  /** The override lists, wherever a format keeps them. */
  function OverridesOf(jNode: V4Node): Option<Overrides> {
    MetaOf(jNode).overrideMD
  }

  /** One node: callees, body and override lists survive, and so does an origin that is not empty. */
  lemma NodeThereAndBack(name: string, jNode: V4Node, callees: seq<string>, callers: seq<string>)
    requires Enumerated(callees, jNode.callees)
    ensures var low := DowngradedNode(jNode, callees, callers);
            var back := UpgradedNode(name, low);
            && HasOriginField(low)
            && back.functionName == Given(name)
            && back.callees == jNode.callees && back.hasBody == jNode.hasBody
            && OverridesOf(back) == OverridesOf(jNode) && MetaOf(back).others == MetaOf(jNode).others
            && OriginOf(back) == (if OriginOf(jNode) == Some("") then None else OriginOf(jNode))
  {
  }

  /** A downgraded node by the fields of the node itself: the override lists move out of the
      metadata, the origin moves in, and empty metadata is null. */
  lemma LegacyFields(jNode: V4Node, callees: seq<string>, callers: seq<string>)
    ensures var low := DowngradedNode(jNode, callees, callers);
            var meta := if jNode.meta.Given? then jNode.meta.value else Meta(None, None, map[]);
            && low.callees == callees && low.callers == callers && low.hasBody == jNode.hasBody
            && (low.isVirtual <==> meta.overrideMD.Some?) && (low.doesOverride <==> low.overrides != [])
            && Overrides(low.overrides, low.overriddenBy)
               == (match meta.overrideMD case Some(o) => o case None => Overrides([], []))
            && (low.meta.None? <==> meta.others == map[] && meta.fileProperties.None? && !jNode.origin.Given?)
            && (low.meta.Some? ==>
                  && low.meta.value.overrideMD.None? && low.meta.value.others == meta.others
                  && (low.meta.value.fileProperties.Some? <==> meta.fileProperties.Some? || jNode.origin.Given?)
                  && (low.meta.value.fileProperties.Some? ==>
                        var p := low.meta.value.fileProperties.value;
                        && p.origin == Some(if jNode.origin.Given? then jNode.origin.value else "")
                        && p.others == match meta.fileProperties case Some(q) => q.others case None => map[]))
  {
  }

  /** An upgraded node by the fields of the node itself: a nonempty origin moves out of the file
      properties, and the override lists move into the metadata if they say something. */
  lemma UpgradedFields(name: string, jNode: V2Node)
    requires jNode.meta.Some? && jNode.meta.value.fileProperties.Some? ==>
               jNode.meta.value.fileProperties.value.origin.Some?
    ensures var high := UpgradedNode(name, jNode);
            var meta := if jNode.meta.Some? then jNode.meta.value else Meta(None, None, map[]);
            var over := jNode.isVirtual || jNode.overrides != [] || jNode.overriddenBy != [];
            && high.functionName == Given(name) && high.hasBody == jNode.hasBody
            && (forall c :: c in high.callees <==> c in jNode.callees)
            && (high.origin
                == if meta.fileProperties.Some? && meta.fileProperties.value.origin != Some("")
                   then Given(meta.fileProperties.value.origin.value) else Field.Null)
            && (if high.meta.Given? then
                  && (over || jNode.meta.Some?) && high.meta.value.others == meta.others
                  && high.meta.value.overrideMD
                     == (if over then Some(Overrides(jNode.overrides, jNode.overriddenBy)) else meta.overrideMD)
                  && (high.meta.value.fileProperties.Some? <==> meta.fileProperties.Some?)
                  && (meta.fileProperties.Some? ==>
                        high.meta.value.fileProperties.value
                        == FileProperties(if high.origin.Given? then None else Some(""),
                                          meta.fileProperties.value.others))
                else
                  high.meta.Null? && !over && jNode.meta.None?)
  {
  }

  /** The caller lists are the callee lists turned round, each caller listed once. */
  lemma CallersTurnedRound(j: V4Graph, h: V2Graph)
    requires Downgraded(j, h)
    ensures h.Keys == j.Keys
    ensures forall k, c | k in h :: c in h[k].callees <==> c in j[k].callees
    ensures forall k, c | k in h :: c in h[k].callers <==> c in j && k in j[c].callees
    ensures forall k, i, n | k in h && 0 <= i < n < |h[k].callers| :: h[k].callers[i] != h[k].callers[n]
    ensures forall k, i, n | k in h && 0 <= i < n < |h[k].callees| :: h[k].callees[i] != h[k].callees[n]
  {
    hide DowngradedNode;
    forall k | k in h
      ensures Enumerated(h[k].callees, j[k].callees) && Enumerated(h[k].callers, CallersIn(j, k))
    {
    }
  }

  /** A node of a version 2 file whose flags agree with its lists, and whose metadata is null if
      there is none. */
  predicate Tidy(jNode: V2Node) {
    && (jNode.doesOverride <==> jNode.overrides != [])
    && (jNode.overrides != [] || jNode.overriddenBy != [] ==> jNode.isVirtual)
    && jNode.meta != Some(NO_META) && (jNode.meta.Some? ==> jNode.meta.value.overrideMD.None?)
  }

  /** The other way round: exactly the tidy nodes of a version 2 file survive the detour. */
  lemma LegacyThereAndBack(name: string, jNode: V2Node)
    requires HasOriginField(jNode)
    ensures DowngradedNode(UpgradedNode(name, jNode), jNode.callees, jNode.callers) == jNode <==> Tidy(jNode)
  {
    LegacyFields(UpgradedNode(name, jNode), jNode.callees, jNode.callers);
    if Tidy(jNode) && jNode.meta.Some? && OriginOut(jNode).Given? {
      var p := jNode.meta.value.fileProperties.value;
      assert p.(origin := None).(origin := p.origin) == p;
    }
  }

  /** The whole file, downgraded and upgraded. */
  lemma FileThereAndBack(j: V4Graph, h: V2Graph)
    requires Downgraded(j, h)
    ensures forall k :: k in h ==> HasOriginField(h[k])
    ensures forall k :: k in j ==>
              var back := UpgradedNode(k, h[k]);
              && back.functionName == Given(k) && back.callees == j[k].callees && back.hasBody == j[k].hasBody
              && OverridesOf(back) == OverridesOf(j[k]) && MetaOf(back).others == MetaOf(j[k]).others
              && OriginOf(back) == (if OriginOf(j[k]) == Some("") then None else OriginOf(j[k]))
  {
    hide DowngradedNode, UpgradedNode, Enumerated, HasOriginField;
    forall k | k in j
      ensures HasOriginField(h[k])
      ensures var back := UpgradedNode(k, h[k]);
              && back.functionName == Given(k) && back.callees == j[k].callees && back.hasBody == j[k].hasBody
              && OverridesOf(back) == OverridesOf(j[k]) && MetaOf(back).others == MetaOf(j[k]).others
              && OriginOf(back) == (if OriginOf(j[k]) == Some("") then None else OriginOf(j[k]))
    {
      NodeThereAndBack(k, j[k], h[k].callees, h[k].callers);
    }
  }
}
