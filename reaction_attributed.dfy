/**
 * ReactionAttributed: a reaction that subscribes to Event<EventMessageAttributed>,
 * keeps a prescribed "Subtype" string attribute and, when notified with a
 * message of its own subtype, copies every attribute of the message into its
 * own attribute table through appendAuxiliaryAttribute, type and value included.
 * Attribute tables are ordered name -> Datum sequences; the channel's subscriber
 * list is an explicit object.
 */
module Reactions {
  import opened Prelude
  import opened Datums

  /** The contents of one attribute's Datum: its type and its elements. */
  datatype DatumValue = DatumValue(dtype: DatumType, values: seq<Value>)

  /** One entry of a Scope table. */
  datatype Attribute = Attribute(name: string, datum: DatumValue)

  /** A prescribed attribute signature: name, type and element count (the field pointer is not modelled). */
  datatype Signature = Signature(name: string, dtype: DatumType, count: nat)

  /** What notify can throw: a prescribed name collision, or a Datum error (setType's mismatch). */
  datatype ReactionError = AttributeCollision | DatumFault(error: DatumError)

  /**
   * EventMessageAttributed: a subtype string and the attribute table the
   * reaction iterates. EventMessageAttributed.h is not part of this model, so
   * the subtype is kept apart from that table; SubtypeEntryCollides shows what
   * notify does if the table holds a "Subtype" entry as well.
   */
  datatype Message = Message(subtype: string, attributes: seq<Attribute>)

  /** The publisher handed to notify: the payload of an Event<EventMessageAttributed>, or some other event. */
  datatype Event = AttributedEvent(message: Message) | OtherEvent(typeId: nat)

  /** The first index of a table entry called name (Scope's find). */
  function IndexOfName(table: seq<Attribute>, name: string): (r: Option<nat>)
    ensures r.Some? ==> r.value < |table| && table[r.value].name == name
    ensures r.Some? ==> forall i :: 0 <= i < r.value ==> table[i].name != name
    ensures r.None? <==> forall i :: 0 <= i < |table| ==> table[i].name != name
    decreases |table|
  {
    if table == [] then None
    else if table[0].name == name then Some(0)
    else match IndexOfName(table[1..], name)
      case None => None
      case Some(i) => Some(i + 1)
  }

  /** Some prescribed signature carries this name. */
  predicate IsPrescribed(signatures: seq<Signature>, name: string)
  {
    exists k :: 0 <= k < |signatures| && signatures[k].name == name
  }

  /** No two entries of a table share a name (a Scope's names are unique). */
  ghost predicate UniqueNames(table: seq<Attribute>)
  {
    forall i, j :: 0 <= i < j < |table| ==> table[i].name != table[j].name
  }

  /** Two tables agree on the names of the first one's entries, and the second one's extra entries are not called name. */
  lemma SameNameIndex(table: seq<Attribute>, extended: seq<Attribute>, name: string)
    requires |table| <= |extended|
    requires forall i :: 0 <= i < |table| ==> extended[i].name == table[i].name
    requires forall i :: |table| <= i < |extended| ==> extended[i].name != name
    ensures IndexOfName(extended, name) == IndexOfName(table, name)
  {
    var r := IndexOfName(table, name);
    var e := IndexOfName(extended, name);
    if r.Some? {
      assert extended[r.value].name == name;
      assert forall i :: 0 <= i < r.value ==> extended[i].name != name;
      assert e.Some? && e.value <= r.value;
      assert e.value == r.value;
    } else {
      assert forall i :: 0 <= i < |extended| ==> extended[i].name != name;
    }
  }

  /**
   * appendAuxiliaryAttribute(name): a prescribed name collides; otherwise the
   * entry called name, appended as an untyped empty Datum when there is none.
   */
  function AppendAuxiliary(table: seq<Attribute>, signatures: seq<Signature>, name: string)
    : (r: Result<(seq<Attribute>, nat), ReactionError>)
    ensures r.Err? <==> IsPrescribed(signatures, name)
    ensures r.Err? ==> r.error == AttributeCollision
    ensures r.Ok? ==> && r.value.1 < |r.value.0| && IndexOfName(r.value.0, name) == Some(r.value.1)
                      && |table| <= |r.value.0| <= |table| + 1 && r.value.0[..|table|] == table
                      && (|r.value.0| > |table| ==> r.value.0[|table|] == Attribute(name, DatumValue(Unknown, [])))
                      && (|r.value.0| > |table| <==> IndexOfName(table, name).None?)
  {
    if IsPrescribed(signatures, name) then Err(AttributeCollision)
    else match IndexOfName(table, name)
      case Some(i) => Ok((table, i))
      case None =>
        var extended := table + [Attribute(name, DatumValue(Unknown, []))];
        assert extended[..|table|] == table;
        assert extended[|table|].name == name;
        assert forall i :: 0 <= i < |table| ==> extended[i].name != name;
        Ok((extended, |table|))
  }

  /** One message attribute can be copied into the table: its name is not prescribed and any entry of that name can take its type. */
  predicate Accepts(table: seq<Attribute>, signatures: seq<Signature>, a: Attribute)
  {
    && !IsPrescribed(signatures, a.name)
    && match IndexOfName(table, a.name)
       case None => true
       case Some(i) => table[i].datum.dtype == Unknown || table[i].datum.dtype == a.datum.dtype
  }

  /**
   * One pass of notify's loop: appendAuxiliaryAttribute(name), setType(type) on
   * the Datum it yields, then assignment of the message's Datum to it.
   */
  function CopyAttribute(table: seq<Attribute>, signatures: seq<Signature>, a: Attribute)
    : (r: Result<seq<Attribute>, ReactionError>)
    ensures r.Ok? <==> Accepts(table, signatures, a)
    ensures r.Err? && IsPrescribed(signatures, a.name) ==> r.error == AttributeCollision
    ensures r.Err? && !IsPrescribed(signatures, a.name) ==> r.error == DatumFault(TypeMismatch)
  {
    match AppendAuxiliary(table, signatures, a.name)
    case Err(e) => Err(e)
    case Ok((t, i)) =>
      match SetTypeResult(t[i].datum.dtype, a.datum.dtype)
      case Err(e) => Err(DatumFault(e))
      case Ok(_) => Ok(t[i := a])
  }

  /**
   * A successful copy leaves the attribute in the table under its name, keeps
   * every existing entry's name and every other entry's Datum, and adds at most
   * an entry of that name.
   */
  lemma CopyAttributeShape(table: seq<Attribute>, signatures: seq<Signature>, a: Attribute)
    requires CopyAttribute(table, signatures, a).Ok?
    ensures var r := CopyAttribute(table, signatures, a).value;
            && IndexOfName(r, a.name).Some? && r[IndexOfName(r, a.name).value] == a
            && |table| <= |r|
            && (forall i :: 0 <= i < |table| ==> r[i].name == table[i].name)
            && (forall i :: 0 <= i < |table| && table[i].name != a.name ==> r[i] == table[i])
            && (forall i :: |table| <= i < |r| ==> r[i].name == a.name)
  {
    var (t, i) := AppendAuxiliary(table, signatures, a.name).value;
    var updated := t[i := a];
    SameNameIndex(t, updated, a.name);
    assert t[..|table|] == table;
    assert forall k :: 0 <= k < |table| ==> t[k] == table[k];
  }

  /** A successful copy keeps the first entry when the attribute is named differently. */
  lemma CopyKeepsFirst(table: seq<Attribute>, signatures: seq<Signature>, a: Attribute)
    requires CopyAttribute(table, signatures, a).Ok? && |table| > 0 && table[0].name != a.name
    ensures |CopyAttribute(table, signatures, a).value| > 0
    ensures CopyAttribute(table, signatures, a).value[0] == table[0]
  {
    CopyAttributeShape(table, signatures, a);
  }

  /**
   * The table after notify's loop over attrs, and how the loop ended: it stops
   * at the first attribute that throws, keeping the copies made before it.
   */
  function Absorb(table: seq<Attribute>, signatures: seq<Signature>, attrs: seq<Attribute>)
    : (seq<Attribute>, Outcome<ReactionError>)
    decreases |attrs|
  {
    if attrs == [] then (table, Pass)
    else
      var (t, o) := Absorb(table, signatures, attrs[..|attrs| - 1]);
      if o.Fail? then (t, o)
      else match CopyAttribute(t, signatures, attrs[|attrs| - 1])
        case Err(e) => (t, Fail(e))
        case Ok(next) => (next, Pass)
  }

  /** Once the loop has thrown, the attributes after that point change nothing. */
  lemma {:induction false} AbsorbStops(table: seq<Attribute>, signatures: seq<Signature>, attrs: seq<Attribute>, k: nat)
    requires k <= |attrs| && Absorb(table, signatures, attrs[..k]).1.Fail?
    ensures Absorb(table, signatures, attrs) == Absorb(table, signatures, attrs[..k])
    decreases |attrs|
  {
    if k < |attrs| {
      var init := attrs[..|attrs| - 1];
      assert init[..k] == attrs[..k];
      AbsorbStops(table, signatures, init, k);
    } else {
      assert attrs[..k] == attrs;
    }
  }

  /**
   * An attribute with a prescribed name that the loop reaches throws
   * AttributeCollision, and the table keeps the copies made before it.
   */
  lemma PrescribedNameCollides(table: seq<Attribute>, signatures: seq<Signature>, attrs: seq<Attribute>, k: nat)
    requires k < |attrs| && IsPrescribed(signatures, attrs[k].name)
    requires Absorb(table, signatures, attrs[..k]).1.Pass?
    ensures Absorb(table, signatures, attrs) == (Absorb(table, signatures, attrs[..k]).0, Fail(AttributeCollision))
  {
    var upTo := attrs[..k + 1];
    assert upTo[..|upTo| - 1] == attrs[..k];
    assert upTo[|upTo| - 1] == attrs[k];
    AbsorbStops(table, signatures, attrs, k + 1);
  }

  /** Every message attribute is accepted by the table as it was before notify. */
  ghost predicate AcceptsAll(table: seq<Attribute>, signatures: seq<Signature>, attrs: seq<Attribute>)
  {
    forall j :: 0 <= j < |attrs| ==> Accepts(table, signatures, attrs[j])
  }

  /**
   * The table r keeps the names of table's entries, keeps the Datum of every
   * entry attrs does not name, and has only entries named by attrs beyond them.
   */
  ghost predicate Shaped(table: seq<Attribute>, attrs: seq<Attribute>, r: seq<Attribute>)
  {
    && |table| <= |r|
    && (forall i :: 0 <= i < |table| ==> r[i].name == table[i].name)
    && (forall i :: 0 <= i < |table| && IndexOfName(attrs, table[i].name).None? ==> r[i] == table[i])
    && (forall i :: |table| <= i < |r| ==> IndexOfName(attrs, r[i].name).Some?)
  }

  /** Every attribute of attrs is in r under its name, with its type and value. */
  ghost predicate Holds(r: seq<Attribute>, attrs: seq<Attribute>)
  {
    forall j :: 0 <= j < |attrs| ==>
      IndexOfName(r, attrs[j].name).Some? && r[IndexOfName(r, attrs[j].name).value] == attrs[j]
  }

  /** The names of a prefix of attrs are names of attrs. */
  lemma PrefixNames(attrs: seq<Attribute>, init: seq<Attribute>, n: string)
    requires attrs != [] && init == attrs[..|attrs| - 1]
    ensures IndexOfName(init, n).Some? ==> IndexOfName(attrs, n).Some?
    ensures IndexOfName(attrs, n).None? ==> IndexOfName(init, n).None?
  {
    if IndexOfName(init, n).Some? {
      assert attrs[IndexOfName(init, n).value].name == n;
    }
  }

  /** Shaped for a prefix of attrs is Shaped for attrs. */
  lemma ShapedWiden(table: seq<Attribute>, attrs: seq<Attribute>, init: seq<Attribute>, r: seq<Attribute>)
    requires attrs != [] && init == attrs[..|attrs| - 1] && Shaped(table, init, r)
    ensures Shaped(table, attrs, r)
  {
    forall i | 0 <= i < |table| && IndexOfName(attrs, table[i].name).None? ensures r[i] == table[i] {
      PrefixNames(attrs, init, table[i].name);
    }
    forall i | |table| <= i < |r| ensures IndexOfName(attrs, r[i].name).Some? {
      PrefixNames(attrs, init, r[i].name);
    }
  }

  /** An attribute no earlier message attribute names finds the table it meets as the original one. */
  lemma AcceptsUnchanged(table: seq<Attribute>, signatures: seq<Signature>, init: seq<Attribute>,
                         t: seq<Attribute>, a: Attribute)
    requires Shaped(table, init, t) && IndexOfName(init, a.name).None?
    ensures IndexOfName(t, a.name) == IndexOfName(table, a.name)
    ensures Accepts(t, signatures, a) <==> Accepts(table, signatures, a)
  {
    SameNameIndex(table, t, a.name);
    var found := IndexOfName(table, a.name);
    if found.Some? {
      assert t[found.value] == table[found.value];
    }
  }

  /** A successful copy of a new name a extends Shaped from init to init + [a]. */
  lemma CopyStepShaped(table: seq<Attribute>, signatures: seq<Signature>, attrs: seq<Attribute>,
                       t: seq<Attribute>)
    requires attrs != [] && Shaped(table, attrs[..|attrs| - 1], t)
    requires CopyAttribute(t, signatures, attrs[|attrs| - 1]).Ok?
    ensures Shaped(table, attrs, CopyAttribute(t, signatures, attrs[|attrs| - 1]).value)
  {
    var init, a := attrs[..|attrs| - 1], attrs[|attrs| - 1];
    var next := CopyAttribute(t, signatures, a).value;
    CopyAttributeShape(t, signatures, a);
    forall i | 0 <= i < |table| && IndexOfName(attrs, table[i].name).None?
      ensures next[i] == table[i]
    {
      PrefixNames(attrs, init, table[i].name);
      assert table[i].name != attrs[|attrs| - 1].name;
    }
    forall i | |table| <= i < |next| ensures IndexOfName(attrs, next[i].name).Some? {
      if i >= |t| {
        assert next[i].name == attrs[|attrs| - 1].name;
      } else {
        PrefixNames(attrs, init, t[i].name);
      }
    }
  }

  /** A successful copy of a name no earlier attribute carries extends Holds from init to init + [a]. */
  lemma CopyStepHolds(signatures: seq<Signature>, attrs: seq<Attribute>, t: seq<Attribute>)
    requires attrs != [] && Holds(t, attrs[..|attrs| - 1])
    requires IndexOfName(attrs[..|attrs| - 1], attrs[|attrs| - 1].name).None?
    requires CopyAttribute(t, signatures, attrs[|attrs| - 1]).Ok?
    ensures Holds(CopyAttribute(t, signatures, attrs[|attrs| - 1]).value, attrs)
  {
    var init, a := attrs[..|attrs| - 1], attrs[|attrs| - 1];
    CopyAttributeShape(t, signatures, a);
    HoldsExtend(t, CopyAttribute(t, signatures, a).value, init, a);
    assert attrs == init + [a];
  }

  /**
   * A table next that holds a under its name and agrees with t on every other
   * name keeps every attribute of init that t holds, when init does not name a.
   */
  lemma HoldsExtend(t: seq<Attribute>, next: seq<Attribute>, init: seq<Attribute>, a: Attribute)
    requires Holds(t, init) && IndexOfName(init, a.name).None?
    requires |t| <= |next|
    requires forall i :: 0 <= i < |t| ==> next[i].name == t[i].name
    requires forall i :: 0 <= i < |t| && t[i].name != a.name ==> next[i] == t[i]
    requires forall i :: |t| <= i < |next| ==> next[i].name == a.name
    requires IndexOfName(next, a.name).Some? && next[IndexOfName(next, a.name).value] == a
    ensures Holds(next, init + [a])
  {
    var all := init + [a];
    forall j | 0 <= j < |all|
      ensures IndexOfName(next, all[j].name).Some? && next[IndexOfName(next, all[j].name).value] == all[j]
    {
      if j < |init| {
        assert all[j] == init[j] && init[j].name != a.name;
        SameNameIndex(t, next, init[j].name);
      }
    }
  }

  /**
   * What notify does with a message of the reaction's subtype (whose attribute
   * names are unique): it succeeds exactly when every attribute is accepted;
   * the existing entries keep their names and, unless the message names them,
   * their Datums; every new entry carries a message attribute's name; and on
   * success every message attribute is in the table with its type and value.
   */
  lemma {:induction false} AbsorbSpec(table: seq<Attribute>, signatures: seq<Signature>, attrs: seq<Attribute>)
    requires UniqueNames(attrs)
    ensures Shaped(table, attrs, Absorb(table, signatures, attrs).0)
    ensures Absorb(table, signatures, attrs).1.Pass? <==> AcceptsAll(table, signatures, attrs)
    ensures Absorb(table, signatures, attrs).1.Pass? ==> Holds(Absorb(table, signatures, attrs).0, attrs)
    decreases |attrs|
  {
    if attrs != [] {
      var init, a := attrs[..|attrs| - 1], attrs[|attrs| - 1];
      UniqueSplit(attrs);
      AbsorbSpec(table, signatures, init);
      AcceptsAllSplit(table, signatures, attrs);
      var t := Absorb(table, signatures, init).0;
      AcceptsUnchanged(table, signatures, init, t, a);
      if Absorb(table, signatures, init).1.Pass? && CopyAttribute(t, signatures, a).Ok? {
        CopyStepShaped(table, signatures, attrs, t);
        CopyStepHolds(signatures, attrs, t);
      } else {
        ShapedWiden(table, attrs, init, t);
      }
    }
  }

  /** The attributes before the last one have unique names, none of them the last one's. */
  lemma UniqueSplit(attrs: seq<Attribute>)
    requires attrs != [] && UniqueNames(attrs)
    ensures UniqueNames(attrs[..|attrs| - 1])
    ensures IndexOfName(attrs[..|attrs| - 1], attrs[|attrs| - 1].name).None?
  {
    var init := attrs[..|attrs| - 1];
    assert forall j :: 0 <= j < |init| ==> init[j] == attrs[j];
  }

  /** All attributes are accepted exactly when those before the last one and the last one are. */
  lemma AcceptsAllSplit(table: seq<Attribute>, signatures: seq<Signature>, attrs: seq<Attribute>)
    requires attrs != []
    ensures AcceptsAll(table, signatures, attrs) <==>
              AcceptsAll(table, signatures, attrs[..|attrs| - 1]) && Accepts(table, signatures, attrs[|attrs| - 1])
  {
    var init := attrs[..|attrs| - 1];
    assert forall j :: 0 <= j < |init| ==> init[j] == attrs[j];
    if !AcceptsAll(table, signatures, init) {
      var j :| 0 <= j < |init| && !Accepts(table, signatures, init[j]);
      assert !Accepts(table, signatures, attrs[j]);
    }
  }

  /** The subscriber list of Event<EventMessageAttributed>. */
  class Channel {
    var subscribers: set<object>

    constructor ()
      ensures subscribers == {}
    {
      subscribers := {};
    }

    /** Event::subscribe */
    method Subscribe(s: object)
      modifies this
      ensures subscribers == old(subscribers) + {s}
    {
      subscribers := subscribers + {s};
    }

    /** Event::unsubscribe */
    method Unsubscribe(s: object)
      modifies this
      ensures subscribers == old(subscribers) - {s}
    {
      subscribers := subscribers - {s};
    }
  }

  /** The entry every reaction starts with: "Subtype", a String Datum holding one string. */
  function SubtypeAttribute(subtype: string): Attribute
  {
    Attribute("Subtype", DatumValue(String, [StringValue(subtype)]))
  }

  class ReactionAttributed {
    var attributes: seq<Attribute>      // the reaction's own Scope table
    var prescribed: seq<Signature>      // mPrescribedAttributes

    /** "Subtype" is the first entry, a String Datum of one string, and a prescribed name. */
    ghost predicate Valid()
      reads this
    {
      && |attributes| > 0
      && attributes[0].name == "Subtype" && attributes[0].datum.dtype == String
      && |attributes[0].datum.values| == 1 && attributes[0].datum.values[0].StringValue?
      && IsPrescribed(prescribed, "Subtype")
    }

    /**
     * ReactionAttributed(): "Subtype" becomes a String attribute holding "",
     * its signature is prescribed, and the reaction subscribes to the channel.
     */
    constructor (channel: Channel)
      modifies channel
      ensures Valid() && attributes == [SubtypeAttribute("")]
      ensures prescribed == [Signature("Subtype", String, 1)]
      ensures GetSubtype() == ""
      ensures channel.subscribers == old(channel.subscribers) + {this}
    {
      attributes := [SubtypeAttribute("")];
      prescribed := [Signature("Subtype", String, 1)];
      new;
      assert prescribed[0].name == "Subtype";
      channel.Subscribe(this);
    }

    /** ~ReactionAttributed(): the reaction leaves the channel. */
    method Dispose(channel: Channel)
      modifies channel
      ensures channel.subscribers == old(channel.subscribers) - {this}
    {
      channel.Unsubscribe(this);
    }

    /** getSubtype(): element 0 of the "Subtype" Datum. */
    function GetSubtype(): (s: string)
      reads this
      requires Valid()
      ensures IndexOfName(attributes, "Subtype") == Some(0)
      ensures attributes[0] == SubtypeAttribute(s)
    {
      attributes[0].datum.values[0].s
    }

    /** setSubtype(s): the "Subtype" Datum now holds s, and nothing else changes. */
    method SetSubtype(s: string)
      requires Valid()
      modifies this`attributes
      ensures Valid() && GetSubtype() == s
      ensures attributes == old(attributes)[0 := SubtypeAttribute(s)]
    {
      attributes := attributes[0 := SubtypeAttribute(s)];
    }

    /**
     * notify(event): ignores a message of another subtype; otherwise copies its
     * attributes in order, stopping at the first one that throws.
     */
    method Notify(event: Event) returns (o: Outcome<ReactionError>)
      requires Valid() && event.AttributedEvent?
      modifies this`attributes
      ensures Valid() && GetSubtype() == old(GetSubtype())
      ensures event.message.subtype != old(GetSubtype()) ==> attributes == old(attributes) && o.Pass?
      ensures event.message.subtype == old(GetSubtype()) ==>
                (attributes, o) == Absorb(old(attributes), prescribed, event.message.attributes)
    {
      var message := event.message;
      var lhs := message.subtype;
      var rhs := GetSubtype();
      o := Pass;
      if lhs == rhs {
        var attrs := message.attributes;
        var i := 0;
        while i < |attrs|
          invariant 0 <= i <= |attrs| && Valid()
          invariant (attributes, o) == Absorb(old(attributes), prescribed, attrs[..i])
          invariant o.Pass? && attributes[0] == old(attributes[0])
        {
          assert attrs[..i + 1][..i] == attrs[..i];
          match CopyAttribute(attributes, prescribed, attrs[i]) {
            case Err(e) =>
              o := Fail(e);
              AbsorbStops(old(attributes), prescribed, attrs, i + 1);
              return;
            case Ok(next) =>
              assert attrs[i].name != "Subtype";
              CopyKeepsFirst(attributes, prescribed, attrs[i]);
              attributes := next;
          }
          i := i + 1;
        }
        assert attrs[..i] == attrs;
      }
    }
  }

  /**
   * A reaction with subtype "Foo" and a message of subtype "Foo" carrying one
   * Integer attribute: notify gains that attribute with its type and value.
   */
  lemma MatchingSubtypeScenario()
    ensures Absorb([SubtypeAttribute("Foo")], [Signature("Subtype", String, 1)],
                   [Attribute("Health", DatumValue(Integer, [IntValue(5)]))])
         == ([SubtypeAttribute("Foo"), Attribute("Health", DatumValue(Integer, [IntValue(5)]))], Pass)
  {
    var sigs := [Signature("Subtype", String, 1)];
    assert !IsPrescribed(sigs, "Health") by {
      assert sigs[0].name != "Health";
    }
    var health := Attribute("Health", DatumValue(Integer, [IntValue(5)]));
    assert [health][..0] == [];
    assert IndexOfName([SubtypeAttribute("Foo")], "Health") == None;
    var extended := [SubtypeAttribute("Foo"), Attribute("Health", DatumValue(Unknown, []))];
    assert [SubtypeAttribute("Foo")] + [Attribute("Health", DatumValue(Unknown, []))] == extended;
    assert AppendAuxiliary([SubtypeAttribute("Foo")], sigs, "Health") == Ok((extended, 1));
    assert extended[1 := health] == [SubtypeAttribute("Foo"), health];
  }

  /**
   * Should the walked table of a message hold its own "Subtype" entry first,
   * notify on a matching subtype throws AttributeCollision at once and the
   * reaction's table is left as it was.
   */
  lemma SubtypeEntryCollides(subtype: string, a: Attribute)
    ensures Absorb([SubtypeAttribute(subtype)], [Signature("Subtype", String, 1)], [SubtypeAttribute(subtype), a])
         == ([SubtypeAttribute(subtype)], Fail(AttributeCollision))
  {
    var sigs := [Signature("Subtype", String, 1)];
    var attrs := [SubtypeAttribute(subtype), a];
    assert IsPrescribed(sigs, attrs[0].name) by {
      assert sigs[0].name == attrs[0].name;
    }
    assert attrs[..0] == [];
    PrescribedNameCollides([SubtypeAttribute(subtype)], sigs, attrs, 0);
  }
}
