/** Identity events and the text under which duplicates of them are suppressed. */
module Events {
  import opened Common

  datatype Event = Event(eventId: string, operation: string, targetSystem: string, payload: string)

  const KEY_PREFIX := "avanpost:"

  function SourceKey(targetSystem: string, eventId: string): string {
    KEY_PREFIX + targetSystem + ":" + eventId
  }

  function KeyOf(e: Event): string {
    SourceKey(e.targetSystem, e.eventId)
  }

  /** An event id the webhook accepts: some character is no white space. */
  predicate Acceptable(id: string) {
    exists i :: 0 <= i < |id| && !IsSpace(id[i])
  }

  /** Some pair of acceptable event ids makes the two target systems share an idempotency key. */
  ghost predicate Collide(t: string, u: string) {
    exists a, b :: Acceptable(a) && Acceptable(b) && SourceKey(t, a) == SourceKey(u, b)
  }

  lemma EndsAcceptable(s: string, id: string)
    requires Acceptable(id)
    ensures Acceptable(s + id)
  {
    var i :| 0 <= i < |id| && !IsSpace(id[i]);
    assert (s + id)[|s| + i] == id[i];
  }

  /** `u` is `t` followed by a colon and anything. */
  predicate ColonExtends(t: string, u: string) {
    |t| < |u| && u[..|t|] == t && u[|t|] == ':'
  }

  lemma StripPrefix(t: string, a: string, u: string, b: string)
    ensures SourceKey(t, a) == SourceKey(u, b) <==> t + ":" + a == u + ":" + b
  {
    var p := KEY_PREFIX;
    assert SourceKey(t, a) == p + (t + ":" + a);
    assert SourceKey(u, b) == p + (u + ":" + b);
    assert SourceKey(t, a)[|p|..] == t + ":" + a;
    assert SourceKey(u, b)[|p|..] == u + ":" + b;
  }

  lemma EqualKeysExtend(t: string, a: string, u: string, b: string)
    requires t + ":" + a == u + ":" + b
    requires |t| < |u|
    ensures ColonExtends(t, u)
  {
    var x := t + ":" + a;
    assert x[..|t|] == t && x[|t|] == ':';
    assert x[..|u|] == u;
    assert u[..|t|] == x[..|t|];
  }

  lemma EqualKeysOfEqualLength(t: string, a: string, u: string, b: string)
    requires t + ":" + a == u + ":" + b
    requires |t| == |u|
    ensures t == u
  {
    assert (t + ":" + a)[..|t|] == t;
    assert (u + ":" + b)[..|t|] == u;
  }

  /**
   * Two different target systems can share an idempotency key exactly when the
   * name of one is the name of the other continued after a colon.
   */
  lemma TargetsCollideIff(t: string, u: string)
    requires t != u
    ensures Collide(t, u) <==> ColonExtends(t, u) || ColonExtends(u, t)
  {
    if Collide(t, u) {
      var a, b :| Acceptable(a) && Acceptable(b) && SourceKey(t, a) == SourceKey(u, b);
      StripPrefix(t, a, u, b);
      if |t| < |u| {
        EqualKeysExtend(t, a, u, b);
      } else if |u| < |t| {
        EqualKeysExtend(u, b, t, a);
      } else {
        EqualKeysOfEqualLength(t, a, u, b);
      }
    }
    if ColonExtends(t, u) {
      ExtensionCollides(t, u);
    }
    if ColonExtends(u, t) {
      ExtensionCollides(u, t);
    }
  }

  lemma ExtensionCollides(t: string, u: string)
    requires ColonExtends(t, u)
    ensures Collide(t, u) && Collide(u, t)
  {
    var id := "1";
    var longer := u[|t| + 1..] + ":" + id;
    assert Acceptable(id) by {
      assert !IsSpace(id[0]);
    }
    EndsAcceptable(u[|t| + 1..] + ":", id);
    StripPrefix(t, longer, u, id);
    assert u == t + ":" + u[|t| + 1..];
    assert t + ":" + longer == u + ":" + id;
    assert SourceKey(u, id) == SourceKey(t, longer);
  }

  /** Within one target system the key identifies the event id. */
  lemma KeyIdentifiesEventId(t: string, a: string, b: string)
    ensures SourceKey(t, a) == "avanpost:" + t + ":" + a
    ensures SourceKey(t, a) == SourceKey(t, b) <==> a == b
  {
    StripPrefix(t, a, t, b);
    var n := |t| + 1;
    assert (t + ":" + a)[n..] == a;
    assert (t + ":" + b)[n..] == b;
  }

  // ----- Ids that name their target ------------------------------------------------

  /** The id rule for one business event sent to several targets. */
  function IdFor(business: string, target: string): string {
    business + target
  }

  /** Some business events, numbered by the rule, make the two targets share a key. */
  ghost predicate CollideByRule(t: string, u: string) {
    exists a, b ::
      && Acceptable(IdFor(a, t)) && Acceptable(IdFor(b, u))
      && SourceKey(t, IdFor(a, t)) == SourceKey(u, IdFor(b, u))
  }

  predicate EndsWith(u: string, t: string) {
    |t| <= |u| && u[|u| - |t|..] == t
  }

  lemma RuleCollisionExtends(t: string, a: string, u: string, b: string)
    requires SourceKey(t, IdFor(a, t)) == SourceKey(u, IdFor(b, u)) && |t| < |u|
    ensures ColonExtends(t, u) && EndsWith(u, t)
  {
    StripPrefix(t, IdFor(a, t), u, IdFor(b, u));
    EqualKeysExtend(t, IdFor(a, t), u, IdFor(b, u));
    var x := t + ":" + (a + t);
    assert x == u + ":" + (b + u);
    assert x[|x| - |t|..] == t;
    assert x[|x| - |u|..] == u;
    assert u[|u| - |t|..] == x[|x| - |t|..];
  }

  lemma ExtensionCollidesByRule(t: string, u: string)
    requires ColonExtends(t, u) && EndsWith(u, t)
    ensures CollideByRule(t, u) && CollideByRule(u, t)
  {
    var id := u[|t| + 1..] + ":" + u;
    var a := id[..|id| - |t|];
    assert id[|id| - |t|..] == u[|u| - |t|..];
    assert id == IdFor(a, t);
    assert t + ":" + id == u + ":" + IdFor("", u);
    StripPrefix(t, IdFor(a, t), u, IdFor("", u));
    assert Acceptable(u) by {
      assert !IsSpace(u[|t|]);
    }
    EndsAcceptable(u[|t| + 1..] + ":", u);
    assert IdFor("", u) == u;
    assert SourceKey(u, IdFor("", u)) == SourceKey(t, IdFor(a, t));
  }

  /**
   * Ids that end in their target narrow the collisions but do not exclude them: one
   * name must also end in the other.
   */
  lemma RuleCollideIff(t: string, u: string)
    requires t != u
    ensures CollideByRule(t, u) <==>
            (ColonExtends(t, u) && EndsWith(u, t)) || (ColonExtends(u, t) && EndsWith(t, u))
  {
    if CollideByRule(t, u) {
      var a, b :| && Acceptable(IdFor(a, t)) && Acceptable(IdFor(b, u))
                  && SourceKey(t, IdFor(a, t)) == SourceKey(u, IdFor(b, u));
      StripPrefix(t, IdFor(a, t), u, IdFor(b, u));
      if |t| < |u| {
        RuleCollisionExtends(t, a, u, b);
      } else if |u| < |t| {
        RuleCollisionExtends(u, b, t, a);
      } else {
        EqualKeysOfEqualLength(t, IdFor(a, t), u, IdFor(b, u));
      }
    }
    if ColonExtends(t, u) && EndsWith(u, t) {
      ExtensionCollidesByRule(t, u);
    }
    if ColonExtends(u, t) && EndsWith(t, u) {
      ExtensionCollidesByRule(u, t);
    }
  }

  /** Two business events, each sent under an id that names its target, with one key. */
  lemma CollisionExample()
    ensures SourceKey("erp", IdFor("erp:42:erp:", "erp")) == SourceKey("erp:erp", IdFor("42:", "erp:erp"))
  {
    StripPrefix("erp", IdFor("erp:42:erp:", "erp"), "erp:erp", IdFor("42:", "erp:erp"));
    assert "erp" + ":" + ("erp:42:erp:" + "erp") == "erp:erp" + ":" + ("42:" + "erp:erp");
  }
}
