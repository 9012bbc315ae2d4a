/** One source patch applied to a sidecar: only the matched inbound's chain
    changes (internal/linechain/sidecar_patch.go). */
module SidecarPatch {
  import opened Common
  import SidecarCycle

  /** The field names the merge knows, and any other. */
  datatype Key<T> = Schema | Inbounds | LineUUID | Tag | Chain | DownstreamLineUUID | OtherKey(name: T)

  /** Decoded JSON over some type of text. Object keys are unique. */
  datatype Json<T(==)> = Null | Text(text: T) | Arr(items: seq<Json<T>>) | Obj(fields: map<Key<T>,
                  Json<T>>) | Scalar(digits: T)

  /** Which texts are accepted as schema, as line ids and as tags. */
  datatype Rules<!T> = Rules(schema: T, isUUID: T -> bool, isTag: T -> bool)

  datatype Patch<T> = Patch(source: T, tag: T, expected: Option<T>, desired: Option<T>)

  function Swapped<T>(p: Patch<T>): Patch<T> {
    p.(expected := p.desired, desired := p.expected)
  }

  /** canonicalSemanticSidecarPatch, as far as the texts go. */
  predicate ValidPatch<T>(rules: Rules<T>, p: Patch<T>) {
    && rules.isUUID(p.source) && rules.isTag(p.tag)
    && (p.expected.Some? ==> rules.isUUID(p.expected.value)) && (p.desired.Some? ==> rules.isUUID(p.desired.value))
  }

  predicate ValidTop<T(==)>(rules: Rules<T>, top: map<Key<T>, Json<T>>) {
    && Schema in top && top[Schema] == Text(rules.schema)
    && Inbounds in top && top[Inbounds].Arr?
  }

  /** semanticInboundIdentity: an object with a line id and a tag. */
  predicate Identified<T(==)>(rules: Rules<T>, x: Json<T>) {
    && x.Obj? && LineUUID in x.fields && Tag in x.fields
    && x.fields[LineUUID].Text? && rules.isUUID(x.fields[LineUUID].text)
    && x.fields[Tag].Text? && rules.isTag(x.fields[Tag].text)
  }

  /** The identity of an inbound. */
  function Identity<T(==)>(x: Json<T>): (T, T)
    requires x.Obj? && LineUUID in x.fields && Tag in x.fields && x.fields[LineUUID].Text? && x.fields[Tag].Text?
  {
    (x.fields[LineUUID].text, x.fields[Tag].text)
  }

  ghost predicate AllIdentified<T>(rules: Rules<T>, items: seq<Json<T>>) {
    forall i :: 0 <= i < |items| ==> Identified(rules, items[i])
  }

  ghost predicate Unique<T>(rules: Rules<T>, items: seq<Json<T>>)
    requires AllIdentified(rules, items)
  {
    forall i, j :: 0 <= i < j < |items| ==>
      Identity(items[i]).0 != Identity(items[j]).0 && Identity(items[i]).1 != Identity(items[j]).1
  }

  /** A sidecar this merge works on: no two inbounds share an id or a tag. */
  ghost predicate Sidecar<T>(rules: Rules<T>, doc: Json<T>) {
    && doc.Obj? && Schema in doc.fields && doc.fields[Schema] == Text(rules.schema)
    && Inbounds in doc.fields && doc.fields[Inbounds].Arr?
    && AllIdentified(rules, doc.fields[Inbounds].items) && Unique(rules, doc.fields[Inbounds].items)
  }

  /** currentDownstreamIdentity: no chain and a null one are both no line; any
      other shape is an error. */
  function Downstream<T(==)>(rules: Rules<T>, inbound: map<Key<T>, Json<T>>): Option<Option<T>> {
    if Chain !in inbound then Some(None)
    else if !inbound[Chain].Obj? || DownstreamLineUUID !in inbound[Chain].fields then None
    else match inbound[Chain].fields[DownstreamLineUUID]
      case Null => Some(None)
      case Text(v) => if rules.isUUID(v) then Some(Some(v)) else None
      case _ => None
  }

  /** The inbound a patch is about, with the downstream it expects. */
  ghost predicate Expected<T>(rules: Rules<T>, doc: Json<T>, p: Patch<T>, i: nat)
    requires Sidecar(rules, doc)
  {
    var items := doc.fields[Inbounds].items;
    i < |items| && Identity(items[i]) == (p.source, p.tag) && Downstream(rules, items[i].fields) == Some(p.expected)
  }

  /** Everything but the chain of inbound i is as it was. */
  ghost predicate OnlyChain<T>(rules: Rules<T>, before: Json<T>, after: Json<T>, i: nat)
    requires Sidecar(rules, before)
  {
    var items := before.fields[Inbounds].items;
    && after.Obj? && after.fields - {Inbounds} == before.fields - {Inbounds}
    && Inbounds in after.fields && after.fields[Inbounds].Arr? && |after.fields[Inbounds].items| == |items|
    && (forall j :: 0 <= j < |items| && j != i ==> after.fields[Inbounds].items[j] == items[j])
    && (i < |items| ==>
        after.fields[Inbounds].items[i].Obj? &&
          after.fields[Inbounds].items[i].fields - {Chain} == items[i].fields - {Chain})
  }

  /** What only touches a chain keeps every identity. */
  lemma ChainKeepsIdentities<T>(rules: Rules<T>, before: Json<T>, after: Json<T>, i: nat)
    requires Sidecar(rules, before) && OnlyChain(rules, before, after, i)
    ensures Sidecar(rules, after)
    ensures var items, items' := before.fields[Inbounds].items, after.fields[Inbounds].items;
            forall j :: 0 <= j < |items| ==> Identity(items'[j]) == Identity(items[j])
  {
    var items, items' := before.fields[Inbounds].items, after.fields[Inbounds].items;
    assert (after.fields - {Inbounds})[Schema] == (before.fields - {Inbounds})[Schema];
    forall j | 0 <= j < |items| ensures Identified(rules, items'[j]) && Identity(items'[j]) == Identity(items[j]) {
      assert Identified(rules, items[j]);
      if j == i {
        KeepsField(items[j].fields, items'[j].fields, LineUUID);
        KeepsField(items[j].fields, items'[j].fields, Tag);
      }
    }
  }

  lemma KeepsField<T>(a: map<Key<T>, Json<T>>, b: map<Key<T>, Json<T>>, k: Key<T>)
    requires b - {Chain} == a - {Chain} && k in a && k != Chain
    ensures k in b && b[k] == a[k]
  {
    assert k in a - {Chain};
    assert (a - {Chain})[k] == a[k] && (b - {Chain})[k] == b[k];
  }

  /** At most one inbound can be the one a patch is about. */
  lemma OneSource<T>(rules: Rules<T>, doc: Json<T>, p: Patch<T>, q: Patch<T>, i: nat, j: nat)
    requires Sidecar(rules, doc) && Expected(rules, doc, p, i) && Expected(rules, doc, q, j) && p.source == q.source
    ensures i == j
  {
  }

  /** The inbound with its chain pointing where the patch wants it. */
  function Rechained<T(==)>(inbound: map<Key<T>, Json<T>>, desired: Option<T>): map<Key<T>, Json<T>> {
    if desired.None? then inbound - {Chain} else inbound[Chain := Obj(map[DownstreamLineUUID := Text(desired.value)])]
  }

  lemma RechainedLeads<T>(rules: Rules<T>, inbound: map<Key<T>, Json<T>>, desired: Option<T>)
    requires desired.Some? ==> rules.isUUID(desired.value)
    ensures Downstream(rules, Rechained(inbound, desired)) == Some(desired)
  {
  }

  lemma RechainedKeeps<T>(inbound: map<Key<T>, Json<T>>, desired: Option<T>)
    ensures Rechained(inbound, desired) - {Chain} == inbound - {Chain}
  {
  }

  /** The identities seen so far, none twice. */
  ghost predicate Seen<T>(rules: Rules<T>, items: seq<Json<T>>, n: nat, uuids: set<T>, tags: set<T>)
    requires n <= |items|
  {
    && AllIdentified(rules, items[..n]) && Unique(rules, items[..n])
    && uuids == (set i | 0 <= i < n :: Identity(items[..n][i]).0)
    && tags == (set i | 0 <= i < n :: Identity(items[..n][i]).1)
  }

  lemma SeenOneMore<T>(rules: Rules<T>, items: seq<Json<T>>, n: nat, uuids: set<T>, tags: set<T>)
    requires n < |items| && Seen(rules, items, n, uuids, tags) && Identified(rules, items[n])
    requires Identity(items[n]).0 !in uuids && Identity(items[n]).1 !in tags
    ensures Seen(rules, items, n + 1, uuids + {Identity(items[n]).0}, tags + {Identity(items[n]).1})
  {
    var more := items[..n + 1];
    assert forall i :: 0 <= i < n ==> more[i] == items[..n][i];
    assert more[n] == items[n];
  }

  lemma SeenTwice<T>(rules: Rules<T>, items: seq<Json<T>>, n: nat, uuids: set<T>, tags: set<T>)
    requires n < |items| && Seen(rules, items, n, uuids, tags) && AllIdentified(rules, items)
    requires Identity(items[n]).0 in uuids || Identity(items[n]).1 in tags
    ensures !Unique(rules, items)
  {
    if Identity(items[n]).0 in uuids {
      var i :| 0 <= i < n && Identity(items[..n][i]).0 == Identity(items[n]).0;
      assert items[..n][i] == items[i];
    } else {
      var i :| 0 <= i < n && Identity(items[..n][i]).1 == Identity(items[n]).1;
      assert items[..n][i] == items[i];
    }
  }

  /** The source id without its tag, the tag without its id, or a second source:
      then no inbound is the one the patch names. */
  lemma Ambiguous<T>(rules: Rules<T>, items: seq<Json<T>>, i: nat, p: Patch<T>, at: Option<nat>)
    requires i < |items| && AllIdentified(rules, items) && Unique(rules, items)
    requires Identity(items[i]).0 == p.source || Identity(items[i]).1 == p.tag
    requires Identity(items[i]) != (p.source, p.tag) ||
      (at.Some? && at.value < i && Identity(items[at.value]) == (p.source, p.tag))
    ensures forall j :: 0 <= j < |items| ==> Identity(items[j]) != (p.source, p.tag)
  {
    forall j | 0 <= j < |items| ensures Identity(items[j]) != (p.source, p.tag) {
      if j < i {
        assert Identity(items[j]).0 != Identity(items[i]).0 && Identity(items[j]).1 != Identity(items[i]).1;
      } else if i < j {
        assert Identity(items[i]).0 != Identity(items[j]).0 && Identity(items[i]).1 != Identity(items[j]).1;
      }
    }
  }

  /** The loop: a valid list of inbounds, and the one the patch names. */
  method FindSource<T(==)>(rules: Rules<T>, items: seq<Json<T>>, p: Patch<T>) returns (at: Option<nat>)
    ensures at.Some? ==>
      AllIdentified(rules, items) && Unique(rules, items) && at.value < |items| &&
        Identity(items[at.value]) == (p.source, p.tag)
    ensures at.None? && AllIdentified(rules, items) && Unique(rules, items) ==>
      forall i :: 0 <= i < |items| ==> Identity(items[i]) != (p.source, p.tag)
  {
    at := None;
    var uuids: set<T>, tags: set<T> := {}, {};
    for i := 0 to |items|
      invariant Seen(rules, items, i, uuids, tags)
      invariant match at
                case Some(k) => k < i && Identity(items[..i][k]) == (p.source, p.tag)
                case None => forall j :: 0 <= j < i ==>
                  Identity(items[..i][j]).0 != p.source && Identity(items[..i][j]).1 != p.tag
    {
      if !Identified(rules, items[i]) {
        return None;
      }
      var (uuid, tag) := Identity(items[i]);
      if uuid in uuids || tag in tags {
        if AllIdentified(rules, items) {
          SeenTwice(rules, items, i, uuids, tags);
        }
        return None;
      }
      SeenOneMore(rules, items, i, uuids, tags);
      uuids, tags := uuids + {uuid}, tags + {tag};
      if uuid == p.source || tag == p.tag {
        if uuid != p.source || tag != p.tag || at.Some? {
          if AllIdentified(rules, items) && Unique(rules, items) {
            Ambiguous(rules, items, i, p, at);
          }
          return None;
        }
        at := Some(i);
      }
    }
    assert items[..|items|] == items;
  }

  /** mergeManagedSidecar: succeeds exactly when the sidecar is valid and the
      named inbound leads where the patch expects; then only that inbound's
      chain changes, and it leads where the patch wants. */
  method Merge<T(==)>(rules: Rules<T>, current: Json<T>, p: Patch<T>) returns (r: Option<Json<T>>, ghost at: nat)
    ensures r.Some? <==> Sidecar(rules, current) && exists i: nat :: Expected(rules, current, p, i)
    ensures r.Some? ==>
      Expected(rules, current, p, at) && OnlyChain(rules, current, r.value, at) && Sidecar(rules, r.value)
    ensures r.Some? && ValidPatch(rules, p) ==>
      Downstream(rules, r.value.fields[Inbounds].items[at].fields) == Some(p.desired)
  {
    at := 0;
    if !current.Obj? || !ValidTop(rules, current.fields) {
      return None, at;
    }
    var items := current.fields[Inbounds].items;
    var found := FindSource(rules, items, p);
    if found.None? {
      return None, at;
    }
    at := found.value;
    var inbound := items[found.value].fields;
    if Downstream(rules, inbound) != Some(p.expected) {
      if i: nat :| Expected(rules, current, p, i) {
        Alone(rules, items, i, found.value);
      }
      return None, at;
    }
    assert Expected(rules, current, p, at);
    var changed := Rechained(inbound, p.desired);
    r := Some(Obj(current.fields[Inbounds := Arr(items[found.value := Obj(changed)])]));
    RechainedKeeps(inbound, p.desired);
    if ValidPatch(rules, p) {
      RechainedLeads(rules, inbound, p.desired);
    }
    ChainKeepsIdentities(rules, current, r.value, at);
  }

  lemma Alone<T>(rules: Rules<T>, items: seq<Json<T>>, i: nat, j: nat)
    requires AllIdentified(rules, items) && Unique(rules, items) && i < |items| && j < |items|
    requires Identity(items[i]) == Identity(items[j])
    ensures i == j
  {
  }

  /** After a successful merge the swapped patch succeeds too. */
  lemma SwappedApplies<T>(rules: Rules<T>, current: Json<T>, merged: Json<T>, p: Patch<T>, at: nat)
    requires Sidecar(rules, current) && Expected(rules, current, p, at) && OnlyChain(rules, current, merged, at)
    requires ValidPatch(rules, p)
    requires Sidecar(rules, merged) && Downstream(rules, merged.fields[Inbounds].items[at].fields) == Some(p.desired)
    ensures ValidPatch(rules, Swapped(p)) && Expected(rules, merged, Swapped(p), at)
  {
    ChainKeepsIdentities(rules, current, merged, at);
  }

  /** Whatever it then returns leads where the first sidecar led, and differs
      from it in nothing but the spelling of that chain. */
  lemma SwappedRestores<T>(rules: Rules<T>, current: Json<T>, merged: Json<T>, back: Json<T>, p: Patch<T>, at: nat,
                           at': nat)
    requires Sidecar(rules, current) && Expected(rules, current, p, at) && OnlyChain(rules, current, merged, at)
    requires ValidPatch(rules, p)
    requires Sidecar(rules, merged) && Downstream(rules, merged.fields[Inbounds].items[at].fields) == Some(p.desired)
    requires Expected(rules, merged, Swapped(p), at') && OnlyChain(rules, merged, back, at')
    requires Downstream(rules, back.fields[Inbounds].items[at'].fields) == Some(p.expected)
    ensures at' == at && Restored(rules, current, back, at)
  {
    SwappedApplies(rules, current, merged, p, at);
    OneSource(rules, merged, Swapped(p), Swapped(p), at, at');
  }

  ghost predicate Restored<T>(rules: Rules<T>, current: Json<T>, back: Json<T>, i: nat)
    requires Sidecar(rules, current) && i < |current.fields[Inbounds].items|
  {
    && OnlyChain(rules, current, back, i)
    && Downstream(rules, back.fields[Inbounds].items[i].fields) ==
      Downstream(rules, current.fields[Inbounds].items[i].fields)
  }

  /** The rules of the agent. */
  function AgentRules(): Rules<string> {
    Rules("lattice.singbox-metadata.v2", SidecarCycle.IsUUIDv4, t => t != "" && Trim(t) == t)
  }

  /** A patch and its reverse, one after the other. */
  method ApplyAndRevert(current: Json<string>, p: Patch<string>) returns (back: Option<Json<string>>)
    requires ValidPatch(AgentRules(), p)
    ensures back.Some? <==> Sidecar(AgentRules(), current) && exists i: nat :: Expected(AgentRules(), current, p, i)
    ensures back.Some? ==>
      exists i: nat :: Expected(AgentRules(), current, p, i) && Restored(AgentRules(), current, back.value, i)
  {
    var merged, at := Merge(AgentRules(), current, p);
    if merged.None? {
      return None;
    }
    SwappedApplies(AgentRules(), current, merged.value, p, at);
    ghost var at';
    back, at' := Merge(AgentRules(), merged.value, Swapped(p));
    SwappedRestores(AgentRules(), current, merged.value, back.value, p, at, at');
  }
}
