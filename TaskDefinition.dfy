/** The rewrite both deployment scripts apply to a described ECS task
    definition before registering it again, and the `family:revision`
    reference that names the result. */
module TaskDefinition {
  import opened Aws
  import opened PyBuiltins

  /** Fields the control plane assigns and refuses on registration. */
  const ControlPlaneFields: seq<string> :=
    ["taskDefinitionArn", "status", "compatibilities", "requiresAttributes", "revision"]

  function FieldSet(names: seq<string>): set<string> {
    set n | n in names
  }

  /** `task_definition['containerDefinitions'][0]` exists and is an object;
      both scripts index it without a guard. */
  predicate HasPrimaryContainer(doc: Document) {
    && "containerDefinitions" in doc
    && doc["containerDefinitions"].Arr?
    && |doc["containerDefinitions"].items| > 0
    && doc["containerDefinitions"].items[0].Obj?
  }

  /** `for k in names: document.pop(k, None)` */
  method PopFields(document: Document, names: seq<string>) returns (remaining: Document)
    ensures remaining.Keys == document.Keys - FieldSet(names)
    ensures forall f :: f in remaining ==> remaining[f] == document[f]
  {
    remaining := document;
    for i := 0 to |names|
      invariant remaining.Keys == document.Keys - FieldSet(names[..i])
      invariant forall f :: f in remaining ==> remaining[f] == document[f]
    {
      assert FieldSet(names[..i + 1]) == FieldSet(names[..i]) + {names[i]} by {
        assert names[..i + 1] == names[..i] + [names[i]];
      }
      remaining := remaining - {names[i]};
    }
    assert names[..|names|] == names;
  }

  /** `after` is `before` with the control-plane fields gone, the primary
      container's image set to `image`, `tags` set to `tags`, and nothing else
      changed: every other field, every other field of the primary container
      and every other container keep their values. */
  ghost predicate Rewritten(after: Document, before: Document, image: string, tags: Value)
    requires HasPrimaryContainer(before)
  {
    var containers := before["containerDefinitions"].items;
    && after.Keys == (before.Keys - FieldSet(ControlPlaneFields)) + {"tags"}
    && after["tags"] == tags
    && (forall f :: f in after && f != "tags" && f != "containerDefinitions" ==> after[f] == before[f])
    && "containerDefinitions" in after
    && after["containerDefinitions"].Arr?
    && |after["containerDefinitions"].items| == |containers|
    && after["containerDefinitions"].items[0] == Obj(containers[0].fields["image" := Str(image)])
    && (forall j :: 1 <= j < |containers| ==> after["containerDefinitions"].items[j] == containers[j])
  }

  /** The promises of the rewrite, one by one: none of the five control-plane
      fields survives, whether or not the input had them; the primary image
      is exactly `image`; and rewriting the result again with the same image
      and tags changes nothing. */
  lemma RewrittenPromises(after: Document, before: Document, image: string, tags: Value)
    requires HasPrimaryContainer(before) && Rewritten(after, before, image, tags)
    ensures forall i :: 0 <= i < |ControlPlaneFields| ==> ControlPlaneFields[i] !in after
    ensures HasPrimaryContainer(after)
    ensures "image" in after["containerDefinitions"].items[0].fields
    ensures after["containerDefinitions"].items[0].fields["image"] == Str(image)
    ensures Rewritten(after, after, image, tags)
  {
    forall i | 0 <= i < |ControlPlaneFields| ensures ControlPlaneFields[i] !in after {
      assert ControlPlaneFields[i] in FieldSet(ControlPlaneFields);
    }
    var primary := after["containerDefinitions"].items[0].fields;
    assert primary["image"] == Str(image);
    var again := after["containerDefinitions"].items;
    assert again[0].fields["image" := Str(image)] == primary;
  }

  /** Two rewrites of the same document to the same image agree on every
      field but `tags`. */
  lemma RewrittenAgreeExceptTags(a: Document, b: Document, before: Document, image: string, tagsA: Value, tagsB: Value)
    requires HasPrimaryContainer(before)
    requires Rewritten(a, before, image, tagsA) && Rewritten(b, before, image, tagsB)
    ensures a.Keys == b.Keys
    ensures forall f :: f in a && f != "tags" ==> a[f] == b[f]
  {
    var itemsA := a["containerDefinitions"].items;
    var itemsB := b["containerDefinitions"].items;
    assert itemsA == itemsB by {
      forall j | 0 <= j < |itemsA| ensures itemsA[j] == itemsB[j] {
        if j > 0 {
          assert itemsA[j] == before["containerDefinitions"].items[j];
        }
      }
    }
  }

  /** `task_definition_family + ':' + str(new_task_revision)` */
  function TaskDefinitionRef(family: string, revision: nat): string {
    family + ":" + DecimalString(revision)
  }

  /** Splits a reference at its last ':' (how a `name:version` reference is read). */
  function SplitAtLastColon(s: string): Option<(string, string)> {
    if s == [] then None
    else if s[|s| - 1] == ':' then Some((s[..|s| - 1], ""))
    else match SplitAtLastColon(s[..|s| - 1])
      case None => None
      case Some(parts) => Some((parts.0, parts.1 + [s[|s| - 1]]))
  }

  lemma {:induction false} SplitAfterColon(family: string, tail: string)
    requires ':' !in tail
    ensures SplitAtLastColon(family + ":" + tail) == Some((family, tail))
  {
    var s := family + ":" + tail;
    if tail == [] {
      assert s[..|s| - 1] == family;
    } else {
      var init := tail[..|tail| - 1];
      assert s[..|s| - 1] == family + ":" + init;
      assert s[|s| - 1] == tail[|tail| - 1];
      SplitAfterColon(family, init);
      assert init + [tail[|tail| - 1]] == tail;
    }
  }

  /** The reference is readable back into the family and the revision,
      even when the family name itself contains ':'. */
  lemma TaskDefinitionRefRoundTrip(family: string, revision: nat)
    ensures var parts := SplitAtLastColon(TaskDefinitionRef(family, revision));
      && parts.Some?
      && parts.value.0 == family
      && AllDigits(parts.value.1)
      && ParseDecimal(parts.value.1) == revision
  {
    var digits := DecimalString(revision);
    DecimalRoundTrip(revision);
    assert ':' !in digits;
    SplitAfterColon(family, digits);
  }
}
