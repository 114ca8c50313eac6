/** The assumptions of the theorems can be met: a faithful environment and a valid codec, built on canonical JSON. */
module Witnesses {
  import opened Base
  import opened Json
  import opened Canonical
  import opened CanonicalTheorems
  import opened FinanceModel
  import Replay = FinanceReplay
  import Store = StoreModel

  // ---- values without objects ---------------------------------------------------------------------

  predicate Flat(v: Json)
  {
    match v
    case Arr(items) => forall i :: 0 <= i < |items| ==> Flat(items[i])
    case Obj(_) => false
    case _ => true
  }

  lemma {:induction false} FlatIsNormal(v: Json)
    requires Flat(v)
    ensures Unique(v) && Norm(v) == v
  {
    if v.Arr? {
      forall i | 0 <= i < |v.items| ensures Unique(v.items[i]) && Norm(v.items[i]) == v.items[i] {
        FlatIsNormal(v.items[i]);
      }
      assert NormItems(v.items) == v.items;
    }
  }

  function List<T>(xs: seq<T>, f: T -> Json): Json
  {
    Arr(seq(|xs|, i requires 0 <= i < |xs| => f(xs[i])))
  }

  function Maybe<T>(x: Option<T>, f: T -> Json): Json
  {
    if x.Some? then Arr([f(x.value)]) else Null
  }

  /** Different values have different, flat encodings. */
  ghost predicate Encodes<T(!new)>(f: T -> Json)
  {
    (forall x :: Flat(f(x))) && (forall x, y :: f(x) == f(y) ==> x == y)
  }

  lemma Lists<T(!new)>(f: T -> Json)
    requires Encodes(f)
    ensures forall xs: seq<T> :: Flat(List(xs, f))
    ensures forall xs: seq<T>, ys: seq<T> :: List(xs, f) == List(ys, f) ==> xs == ys
  {
    forall xs: seq<T>, ys: seq<T> | List(xs, f) == List(ys, f) ensures xs == ys {
      assert |List(xs, f).items| == |xs| && |List(ys, f).items| == |ys|;
      forall i | 0 <= i < |xs| ensures xs[i] == ys[i] {
        assert List(xs, f).items[i] == f(xs[i]) && List(ys, f).items[i] == f(ys[i]);
      }
    }
  }

  lemma Maybes<T(!new)>(f: T -> Json)
    requires Encodes(f)
    ensures forall x: Option<T> :: Flat(Maybe(x, f))
    ensures forall x: Option<T>, y: Option<T> :: Maybe(x, f) == Maybe(y, f) ==> x == y
  {
    forall x: Option<T>, y: Option<T> | Maybe(x, f) == Maybe(y, f) ensures x == y {
      if x.Some? {
        assert Maybe(x, f).items[0] == f(x.value) && Maybe(y, f).items[0] == f(y.value);
      }
    }
  }

  /** Equal rows have equal cells. */
  lemma Row(a: seq<Json>, b: seq<Json>)
    requires Arr(a) == Arr(b)
    ensures |a| == |b| && forall i :: 0 <= i < |a| ==> a[i] == b[i]
  {
  }

  // ---- finance manifests and events ----------------------------------------------------------------

  function Text(s: string): Json { Str(s) }

  function StatusJson(s: Status): Json
  {
    match s
    case Preflight => Num(0)
    case R1Running => Num(1)
    case R2Running => Num(2)
    case Merging => Num(3)
    case Completed => Num(4)
    case Degraded => Num(5)
    case Failed => Num(6)
    case Cancelled => Num(7)
  }

  function CodeJson(c: TerminationCode): Json
  {
    match c
    case OutputInvalid => Num(0)
    case IntegrityFailure => Num(1)
    case OperatorCancelled => Num(2)
  }

  function TerminationJson(t: Termination): Json { Arr([StatusJson(t.phase), CodeJson(t.code), Bool(t.retryable)]) }

  function IdentityJson(i: Identity): Json
  {
    Arr([Str(i.family), Maybe(i.schemaId, Text), Str(i.revision), Str(i.exactSha256), Str(i.semanticDomain),
         Str(i.semanticSha256)])
  }

  function BindingJson(b: Binding): Json { Arr([Str(b.artifactRef), IdentityJson(b.identity)]) }

  function ManifestJson(m: Manifest): Json
  {
    Arr([Str(m.runId), Str(m.genesis), Num(m.checkpoint.sequence), Str(m.checkpoint.eventSha256), StatusJson(m.status),
         Maybe(m.termination, TerminationJson), BindingJson(m.policy), BindingJson(m.invocation),
         List(m.r1Packets, BindingJson), List(m.r2Packets, BindingJson), List(m.r1Outputs, BindingJson),
         List(m.r2Outputs, BindingJson), List(m.arbiterOutputs, BindingJson), Maybe(m.result, BindingJson)])
  }

  function BodyJson(b: Body): Json
  {
    match b
    case RunCreated(status, ids) => Arr([StatusJson(status), List(ids, IdentityJson)])
    case PhaseAdvanced(previous, status, ids) => Arr([StatusJson(previous), StatusJson(status), List(ids, IdentityJson)])
    case RunTerminalized(previous, status, ids, result, termination) =>
      Arr([StatusJson(previous), StatusJson(status), List(ids, IdentityJson), Maybe(result, IdentityJson),
           Maybe(termination, TerminationJson)])
  }

  function EventJson(e: Event): Json
  {
    Arr([Str(e.runId), Str(e.genesis), Num(e.sequence), Maybe(e.previousSha256, Text), BodyJson(e.body)])
  }

  lemma StatusEncodes()
    ensures Encodes(StatusJson) && Encodes(Text)
  {
  }

  lemma TerminationEncodes()
    ensures Encodes(TerminationJson)
  {
    StatusEncodes();
    forall x: Termination, y: Termination | TerminationJson(x) == TerminationJson(y) ensures x == y {
      Row(TerminationJson(x).items, TerminationJson(y).items);
      assert x.phase == y.phase && x.code == y.code && x.retryable == y.retryable;
    }
  }

  lemma IdentityEncodes()
    ensures Encodes(IdentityJson)
  {
    StatusEncodes();
    Maybes(Text);
    forall x: Identity, y: Identity | IdentityJson(x) == IdentityJson(y) ensures x == y {
      var a, b := IdentityJson(x).items, IdentityJson(y).items;
      Row(a, b);
      assert a[0] == b[0] && a[1] == b[1] && a[2] == b[2] && a[3] == b[3] && a[4] == b[4] && a[5] == b[5];
    }
  }

  lemma BindingEncodes()
    ensures Encodes(BindingJson)
  {
    IdentityEncodes();
    forall x: Binding, y: Binding | BindingJson(x) == BindingJson(y) ensures x == y {
      var a, b := BindingJson(x).items, BindingJson(y).items;
      Row(a, b);
      assert a[0] == b[0] && a[1] == b[1];
      assert x.identity == y.identity;
    }
  }

  lemma ManifestIsFlat(m: Manifest)
    ensures Flat(ManifestJson(m))
  {
    StatusEncodes();
    TerminationEncodes();
    BindingEncodes();
    Maybes(TerminationJson);
    Maybes(BindingJson);
    Lists(BindingJson);
    hide StatusJson, TerminationJson, BindingJson, List, Maybe;
  }

  lemma ManifestEncodes()
    ensures Encodes(ManifestJson)
  {
    forall m ensures Flat(ManifestJson(m)) {
      ManifestIsFlat(m);
    }
    StatusEncodes();
    TerminationEncodes();
    BindingEncodes();
    Maybes(TerminationJson);
    Maybes(BindingJson);
    Lists(BindingJson);
    hide StatusJson, TerminationJson, BindingJson, ManifestJson, List, Maybe, Flat;
    forall x: Manifest, y: Manifest | ManifestJson(x) == ManifestJson(y) ensures x == y {
      SameManifests(x, y);
    }
  }

  lemma SameManifests(x: Manifest, y: Manifest)
    requires ManifestJson(x) == ManifestJson(y) && Encodes(StatusJson) && Encodes(BindingJson)
    requires forall a: Option<Termination>, b: Option<Termination> ::
               Maybe(a, TerminationJson) == Maybe(b, TerminationJson) ==> a == b
    requires forall a: Option<Binding>, b: Option<Binding> :: Maybe(a, BindingJson) == Maybe(b, BindingJson) ==> a == b
    requires forall a: seq<Binding>, b: seq<Binding> :: List(a, BindingJson) == List(b, BindingJson) ==> a == b
    ensures x == y
  {
    var a, b := ManifestJson(x).items, ManifestJson(y).items;
    Row(a, b);
    hide TerminationJson, BindingJson, List, Maybe;
    assert a[0] == b[0] && a[1] == b[1] && a[2] == b[2] && a[3] == b[3] && a[4] == b[4] && a[5] == b[5] && a[6] == b[6];
    assert a[7] == b[7] && a[8] == b[8] && a[9] == b[9] && a[10] == b[10] && a[11] == b[11] && a[12] == b[12];
    assert a[13] == b[13];
  }

  lemma SameBodies(x: Body, y: Body)
    requires BodyJson(x) == BodyJson(y)
    ensures x == y && Flat(BodyJson(x))
  {
    StatusEncodes();
    TerminationEncodes();
    IdentityEncodes();
    Maybes(TerminationJson);
    Maybes(IdentityJson);
    Lists(IdentityJson);
    var a, b := BodyJson(x).items, BodyJson(y).items;
    Row(a, b);
    hide StatusJson, TerminationJson, IdentityJson, List, Maybe;
    assert a[0] == b[0] && a[1] == b[1];
    assert |a| >= 3 ==> a[2] == b[2];
    assert |a| == 5 ==> a[3] == b[3] && a[4] == b[4];
  }

  lemma EventEncodes()
    ensures Encodes(EventJson)
  {
    StatusEncodes();
    Maybes(Text);
    forall x: Event ensures Flat(EventJson(x)) {
      SameBodies(x.body, x.body);
      hide BodyJson, Maybe;
    }
    forall x: Event, y: Event | EventJson(x) == EventJson(y) ensures x == y {
      var a, b := EventJson(x).items, EventJson(y).items;
      Row(a, b);
      assert a[0] == b[0] && a[1] == b[1] && a[2] == b[2] && a[3] == b[3] && a[4] == b[4];
      SameBodies(x.body, y.body);
    }
  }

  // ---- a faithful environment ----------------------------------------------------------------------

  /** The value with this encoding. */
  ghost function Decoded<S(!new), T(!new)>(f: T -> S, s: S): Option<T>
  {
    if x: T :| f(x) == s then Some(x) else None
  }

  lemma DecodesOnly<S(!new), T(!new)>(f: T -> S, x: T)
    requires forall a, b :: f(a) == f(b) ==> a == b
    ensures Decoded(f, f(x)) == Some(x)
  {
  }

  function ManifestText(m: Manifest): string { CanonicalText(ManifestJson(m)) }

  ghost function ExampleEnv(): Env
  {
    Env(t => t, EventJson, j => Decoded(EventJson, j), j => true,
        ManifestText, t => Decoded(ManifestText, t), m => true, m => true)
  }

  lemma SameTexts(v: Json, w: Json)
    requires Flat(v) && Flat(w) && CanonicalText(v) == CanonicalText(w)
    ensures v == w
  {
    FlatIsNormal(v);
    FlatIsNormal(w);
    ParserInvertsWriter(v);
    ParserInvertsWriter(w);
  }

  /** There is an environment, without any digest collision, in which serialization is faithful and every schema
      accepts. */
  lemma FaithfulEnvironment()
    ensures ExampleEnv().Faithful() && Replay.Permissive(ExampleEnv())
    ensures forall a, b :: !Collision(ExampleEnv().hash, a, b)
  {
    EventEncodes();
    ManifestEncodes();
    var env := ExampleEnv();
    hide EventJson, ManifestJson, CanonicalText;
    forall e
      ensures Unique(env.toValue(e)) && Norm(env.toValue(e)) == env.toValue(e)
      ensures env.fromValue(env.toValue(e)) == Some(e)
    {
      FlatIsNormal(EventJson(e));
      DecodesOnly(EventJson, e);
    }
    forall x: Manifest, y: Manifest | ManifestText(x) == ManifestText(y) ensures x == y {
      SameTexts(ManifestJson(x), ManifestJson(y));
    }
    forall m ensures env.parseManifest(env.manifestBytes(m)) == Some(m) {
      DecodesOnly(ManifestText, m);
    }
  }

  // ---- a valid codec of run events ------------------------------------------------------------------

  function RunStatusJson(s: Store.Status): Json
  {
    match s
    case Queued => Num(0)
    case Preflight => Num(1)
    case R1Running => Num(2)
    case R1Gate => Num(3)
    case R2Packet => Num(4)
    case R2Running => Num(5)
    case R2Gate => Num(6)
    case R3Cc => Num(7)
    case WaitingPrimaryArbiter => Num(8)
    case Merging => Num(9)
    case Completed => Num(10)
    case Degraded => Num(11)
    case Failed => Num(12)
    case FailedPolicy => Num(13)
    case Cancelling => Num(14)
    case Cancelled => Num(15)
  }

  function ChangeJson(c: Store.Change): Json
  {
    Arr([Str(c.id), Str(c.timestamp), RunStatusJson(c.from), RunStatusJson(c.to), RunStatusJson(c.requested),
         Maybe(c.phase, Text), Str(c.detail)])
  }

  function RunEventJson(e: Store.Event): Json
  {
    Arr([Num(e.sequence), if e.body.Moved? then ChangeJson(e.body.change) else Str(e.body.kind)])
  }

  lemma RunStatusEncodes()
    ensures Encodes(RunStatusJson)
  {
  }

  lemma SameChanges(x: Store.Change, y: Store.Change)
    requires ChangeJson(x) == ChangeJson(y)
    ensures x == y
  {
    StatusEncodes();
    RunStatusEncodes();
    Maybes(Text);
    var a, b := ChangeJson(x).items, ChangeJson(y).items;
    Row(a, b);
    hide RunStatusJson, Maybe;
    assert a[0] == b[0] && a[1] == b[1] && a[2] == b[2] && a[3] == b[3] && a[4] == b[4] && a[5] == b[5] && a[6] == b[6];
  }

  lemma ChangeEncodes()
    ensures Encodes(ChangeJson)
  {
    forall x ensures Flat(ChangeJson(x)) {
      RunStatusEncodes();
      Maybes(Text);
    }
    forall x: Store.Change, y: Store.Change | ChangeJson(x) == ChangeJson(y) ensures x == y {
      SameChanges(x, y);
    }
  }

  lemma RunEventEncodes()
    ensures Encodes(RunEventJson)
  {
    ChangeEncodes();
    forall x: Store.Event, y: Store.Event | RunEventJson(x) == RunEventJson(y) ensures x == y {
      var a, b := RunEventJson(x).items, RunEventJson(y).items;
      Row(a, b);
      assert a[0] == b[0] && a[1] == b[1];
    }
  }

  /** An event as its JSON text and a mark that ends it. */
  function RunEventText(e: Store.Event): string { CanonicalText(RunEventJson(e)) + "#" }

  ghost function ExampleCodec(): Store.Codec
  {
    Store.Codec(RunEventText, t => Decoded(RunEventText, t), e => true, m => true)
  }

  /** The mark ends the text: nothing that starts with one text goes on to another. */
  lemma MarkEnds(v: Json, w: Json, rest: string)
    requires Flat(v) && Flat(w) && CanonicalText(v) + "#" + rest == CanonicalText(w) + "#"
    ensures v == w && rest == ""
  {
    FlatIsNormal(v);
    FlatIsNormal(w);
    assert CanonicalText(v) + "#" + rest == CanonicalText(v) + ("#" + rest);
    TextParses(v, "#" + rest);
    TextParses(w, "#");
  }

  lemma PieceIsRefused(e: Store.Event, k: nat)
    ensures ExampleCodec().RefusesPiece(e, k)
  {
    RunEventEncodes();
    var t := RunEventText(e);
    if k < |t| && exists x :: RunEventText(x) == t[..k] {
      var x :| RunEventText(x) == t[..k];
      assert t == t[..k] + t[k..];
      MarkEnds(RunEventJson(x), RunEventJson(e), t[k..]);
    }
  }

  lemma EventPrints(e: Store.Event)
    ensures ExampleCodec().Prints(e)
  {
    RunEventEncodes();
    TextIsPrintable(Norm(RunEventJson(e)));
    forall x: Store.Event, y: Store.Event | RunEventText(x) == RunEventText(y) ensures x == y {
      assert RunEventText(x) + "" == RunEventText(x);
      MarkEnds(RunEventJson(x), RunEventJson(y), "");
    }
    DecodesOnly(RunEventText, e);
  }

  /** There is a codec that prints every event on one line, reads it back, and reads no proper piece. */
  lemma ValidCodec()
    ensures ExampleCodec().Valid() && forall e :: ExampleCodec().eventOk(e)
  {
    forall e ensures ExampleCodec().Prints(e) {
      EventPrints(e);
    }
    forall e, k: nat ensures ExampleCodec().RefusesPiece(e, k) {
      PieceIsRefused(e, k);
    }
  }
}
