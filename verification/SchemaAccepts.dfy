/** The schema check and the section resolvers agree: which [callers] tables are callers, and that no document the
    schema accepts has a key the resolvers do not know. */
module SchemaAccepts {
  import opened Options
  import opened Sections
  import opened Toml
  import G = SchemaGrammar
  import D = SchemaDepth
  import C = Callers
  import E = Egress
  import Plans
  import Ranges

  // ---------- the two ways of telling callers from overlays ----------

  lemma CallerKeyFields()
    ensures |G.CALLER.fields| == |C.CALLER_KEYS|
    ensures forall key: string :: key in C.CALLER_KEYS
              <==> exists f | 0 <= f < |G.CALLER.fields| :: G.CALLER.fields[f].name == key
  {
    assert G.CALLER.fields[0].name == "namespace" && G.CALLER.fields[1].name == "labels"
        && G.CALLER.fields[2].name == "service" && G.CALLER.fields[3].name == "ports";
  }

  /** The walker and the resolver classify a [callers] sub-table alike exactly when it is not empty: the walker
      takes an empty one for a caller, the resolver for an overlay. */
  lemma ClassifiersAgreeUnlessEmpty(entries: seq<Field>)
    ensures D.IsCaller(entries) == !C.IsOverlay(Tab(entries)) <==> entries != []
  {
    CallerKeyFields();
    if G.HasCallerKey(entries) {
      var i :| 0 <= i < |entries| && exists f | 0 <= f < |G.CALLER.fields| :: G.CALLER.fields[f].name == entries[i].key;
      assert entries[i].key in C.CALLER_KEYS;
    }
    if !C.IsOverlay(Tab(entries)) {
      var i :| 0 <= i < |entries| && entries[i].key in C.CALLER_KEYS;
      assert G.HasCallerKey(entries);
    }
  }

  // ---------- tables of fixed keys ----------

  lemma RangeTableKeysKnown(v: Value, schema: G.TableSchema, keys: seq<string>, key: string)
    requires (schema == G.FQDN && keys == E.FQDN_KEYS) || (schema == G.CIDR && keys == E.CIDR_KEYS)
    requires v.Tab? ==> G.TableConforms(v.entries, schema)
    ensures !E.HasStrangeKey(v, keys, key)
  {
  }

  lemma ListKeysKnown(v: Value, schema: G.TableSchema, keys: seq<string>, key: string)
    requires (schema == G.FQDN && keys == E.FQDN_KEYS) || (schema == G.CIDR && keys == E.CIDR_KEYS)
    requires G.RowsConform(v, schema)
    ensures !E.ListHasStrangeKey(v, keys, key)
  {
    D.ElementsConform(v, schema);
    if E.ListHasStrangeKey(v, keys, key) {
      var items := Elements(v).value;
      var i :| 0 <= i < |items| && E.HasStrangeKey(items[i], keys, key);
      assert D.Element(v, schema, i) == Some(D.RowNode(items[i].entries, schema));
      assert D.NodeConforms(D.Element(v, schema, i).value);
      RangeTableKeysKnown(items[i], schema, keys, key);
    }
  }

  // ---------- [callers] ----------

  lemma CallerTableKeysKnown(f: Field, e: Error)
    requires f.value.Tab? ==> G.TableConforms(f.value.entries, G.CALLER)
    ensures !C.NamesUnknownKey(f, e)
  {
    if C.NamesUnknownKey(f, e) {
      CallerKeyFields();
    }
  }

  /** A [callers] section the schema accepts has no unknown key anywhere, overlays included. */
  lemma AcceptedCallersKeysKnown(raw: seq<Field>, i: nat, e: Error)
    requires G.Conforms(Tab(raw), G.Callers) && i < |raw|
    ensures !C.UnknownKeyUnder(raw[i], e)
  {
    var f := raw[i];
    assert Tab(raw).entries[i] == f && G.CallerConforms(f);
    if f.value.Tab? {
      ClassifiersAgreeUnlessEmpty(f.value.entries);
      assert f.value == Tab(f.value.entries);
      if D.IsCaller(f.value.entries) {
        CallerTableKeysKnown(f, e);
      } else {
        forall k | 0 <= k < |f.value.entries| ensures !C.NamesUnknownKey(f.value.entries[k], e) {
          assert G.InnerCallerConforms(f.value.entries[k]);
          CallerTableKeysKnown(f.value.entries[k], e);
        }
      }
    }
  }

  // ---------- [egress] ----------

  predicate IsEgressSchema(schema: G.TableSchema) {
    schema == G.EGRESS || schema == G.Fixed(G.EGRESS_FIELDS)
  }

  lemma EgressShapes(schema: G.TableSchema, key: string)
    requires IsEgressSchema(schema)
    ensures key == "fqdns" ==> G.FieldShape(schema, key) == Some(G.ArrayOf(G.FQDN))
    ensures key == "cidrs" ==> G.FieldShape(schema, key) == Some(G.ArrayOf(G.CIDR))
    ensures key !in E.EGRESS_KEYS ==> G.FieldShape(schema, key).None?
  {
    var at := G.FieldIndex(schema, schema.fields, key);
    assert schema.fields[0].name == "fqdns" && schema.fields[1].name == "cidrs"
        && schema.fields[2].name == "kube_apiserver";
    assert at.Some? ==> at.value == 0 || at.value == 1 || at.value == 2;
    assert !G.Matches(schema, "fqdns", "cidrs");
    assert at.None? ==>
        !G.Matches(schema, schema.fields[0].name, key) && !G.Matches(schema, schema.fields[1].name, key);
  }

  lemma EgressKeyKnown(f: Field, schema: G.TableSchema, key: string)
    requires IsEgressSchema(schema) && G.FieldConforms(f, schema)
    ensures !E.KeyIsStrange(f, schema == G.EGRESS, key)
  {
    EgressShapes(schema, f.key);
    if f.key == "fqdns" {
      assert G.Conforms(f.value, G.ArrayOf(G.FQDN));
      ListKeysKnown(f.value, G.FQDN, E.FQDN_KEYS, key);
    } else if f.key == "cidrs" {
      assert G.Conforms(f.value, G.ArrayOf(G.CIDR));
      ListKeysKnown(f.value, G.CIDR, E.CIDR_KEYS, key);
    }
  }

  lemma EgressTableKeysKnown(entries: seq<Field>, schema: G.TableSchema, key: string)
    requires IsEgressSchema(schema) && G.TableConforms(entries, schema)
    ensures !E.TableHasStrangeKey(entries, schema == G.EGRESS, key)
  {
    forall i | 0 <= i < |entries| ensures !E.KeyIsStrange(entries[i], schema == G.EGRESS, key) {
      EgressKeyKnown(entries[i], schema, key);
    }
  }

  /** An [egress] section the schema accepts has no unknown key anywhere, overlays included. */
  lemma AcceptedEgressKeysKnown(raw: seq<Field>, key: string)
    requires G.Conforms(Tab(raw), G.TableOf(G.EGRESS))
    ensures !E.EgressHasStrangeKey(raw, key)
  {
    assert G.TableConforms(Tab(raw).entries, G.EGRESS);
    EgressTableKeysKnown(raw, G.EGRESS, key);
    forall i | 0 <= i < |raw| ensures !E.OverlayHasStrangeKey(raw[i], key) {
      if raw[i].key !in E.EGRESS_KEYS && raw[i].value.Tab? {
        EgressShapes(G.EGRESS, raw[i].key);
        assert G.FieldConforms(raw[i], G.EGRESS);
        EgressTableKeysKnown(raw[i].value.entries, G.Fixed(G.EGRESS_FIELDS), key);
      }
    }
  }

  /** Resolving the two sections of a document the schema accepted never reports an unknown key. */
  method ResolveAccepted(callers: seq<Field>, egress: seq<Field>, env: string, addresses: Ranges.Addresses)
    returns (ingress: Result<seq<Plans.Caller>>, spec: Result<E.EgressSpec>)
    requires G.Conforms(Tab(callers), G.Callers) && G.Conforms(Tab(egress), G.TableOf(G.EGRESS))
    requires UniqueKeys(callers) && NestedKeysUnique(callers) && UniqueKeys(egress)
    ensures ingress.Err? ==> !ingress.error.UnknownKey?
    ensures spec.Err? ==> !spec.error.UnknownKey?
  {
    ingress := C.ResolveCallers(callers, env);
    if ingress.Err? {
      forall i | 0 <= i < |callers| ensures !C.UnknownKeyUnder(callers[i], ingress.error) {
        AcceptedCallersKeysKnown(callers, i, ingress.error);
      }
    }
    spec := E.ResolveEgress(egress, env, Ranges.InRange(addresses));
    if spec.Err? && spec.error.UnknownKey? { AcceptedEgressKeysKnown(egress, spec.error.key); }
  }
}
