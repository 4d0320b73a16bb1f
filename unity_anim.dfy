/** ANIM: builds a Unity animation clip from an H3D skeletal animation. For
    each transform element it samples a translation, a scale and a rotation
    curve, one keyframe per frame, each curve named by the bone's path in the
    skeleton; then it fills in the slopes and unwraps the Euler angles. */
module UnityAnim {
  import opened Streams
  import opened UnityCurve

  /** What the exporter reads of an H3DBone: its name, ParentIndex (-1 at a
      root) and whether its flags carry IsSegmentScaleCompensate. */
  datatype Bone = Bone(name: string, parentIndex: int, scaleCompensate: bool)

  /** H3DPrimitiveType, as far as the exporter tells its values apart. */
  datatype PrimitiveType = TransformType | QuatTransformType | OtherType

  /** The run-time type of an element's Content. */
  datatype Content = TransformContent | QuatTransformContent | OtherContent

  /** What the exporter reads of an H3DAnimationElement. */
  datatype Element = Element(name: string, primitiveType: PrimitiveType, content: Content)

  /** The value of a curve at one frame and where it comes from: the
      element's translation (falling back to the bone's), its rotation as
      Euler degrees, or its scale compensated by the parent bone's. */
  datatype Channel =
    | TranslationOf(elem: Element, bone: Bone)
    | RotationOf(elem: Element)
    | ScaleOf(elem: Element, bone: Bone, parent: Bone, parentElem: Option<Element>)

  /** The sampling and float arithmetic of the H3D animation types, which are
      not part of this model: GetFrameValue, the quaternion to Euler
      conversion, the axis mirroring and the scale compensation. */
  datatype Sampler = Sampler(
    translation: (Element, Bone, int) -> Vector3,
    rotation: (Element, int) -> Vector3,
    scale: (Element, Bone, Bone, Option<Element>, int) -> Vector3)

  function ValueAt(s: Sampler, c: Channel, frame: int): Vector3
  {
    match c
    case TranslationOf(e, b) => s.translation(e, b, frame)
    case RotationOf(e) => s.rotation(e, frame)
    case ScaleOf(e, b, p, pe) => s.scale(e, b, p, pe, frame)
  }

  /** (int) of a float: truncation toward zero. */
  function Truncate(r: real): (n: int)
    ensures r >= 0.0 ==> n as real <= r < n as real + 1.0
    ensures r < 0.0 ==> n as real - 1.0 < r <= n as real
  {
    if r >= 0.0 then r.Floor else -((-r).Floor)
  }

  // ----- FirstOrDefault -----

  /** The index of the first bone named name. */
  function FindBone(sk: seq<Bone>, name: string): (r: Option<nat>)
    ensures r.Some? ==> r.value < |sk| && sk[r.value].name == name
    ensures r.Some? ==> forall j :: 0 <= j < r.value ==> sk[j].name != name
    ensures r.None? ==> forall j :: 0 <= j < |sk| ==> sk[j].name != name
  {
    if sk == [] then None
    else if sk[0].name == name then Some(0)
    else match FindBone(sk[1..], name)
      case None => None
      case Some(j) => Some(j + 1)
  }

  /** The first element named name. */
  function FindElement(es: seq<Element>, name: string): (r: Option<Element>)
    ensures r.Some? ==> r.value in es && r.value.name == name
    ensures r.Some? ==> exists k :: 0 <= k < |es| && es[k] == r.value && forall j :: 0 <= j < k ==> es[j].name != name
    ensures r.None? ==> forall j :: 0 <= j < |es| ==> es[j].name != name
  {
    if es == [] then None
    else if es[0].name == name then Some(es[0])
    else FindElement(es[1..], name)
  }

  // ----- Bone paths -----

  /** Following ParentIndex from bone i reaches a root within fuel steps,
      through valid indices only. */
  predicate Rooted(sk: seq<Bone>, i: int, fuel: nat)
    decreases fuel
  {
    0 <= i < |sk| && (sk[i].parentIndex == -1 || (fuel > 0 && Rooted(sk, sk[i].parentIndex, fuel - 1)))
  }

  /** GetBonePath(name) ends: no bone has that name, or the parent chain of
      the first bone that has it reaches a root through valid indices. A
      chain that visits no bone twice has fewer than |sk| steps, so fuel |sk|
      admits every chain on which the source's loop ends without throwing. */
  predicate NameRooted(sk: seq<Bone>, name: string)
  {
    FindBone(sk, name).Some? ==> Rooted(sk, FindBone(sk, name).value, |sk|)
  }

  /** NameRooted for the bone of every Transform or QuatTransform element:
      the only bones whose chains the exporter follows. */
  predicate NamedBonesRooted(sk: seq<Bone>, es: seq<Element>)
  {
    forall j :: 0 <= j < |es| && es[j].primitiveType != OtherType ==> NameRooted(sk, es[j].name)
  }

  /** Every prefix of the elements keeps NamedBonesRooted. */
  lemma NamedBonesPrefix(sk: seq<Bone>, es: seq<Element>, n: nat)
    requires NamedBonesRooted(sk, es) && n <= |es|
    ensures NamedBonesRooted(sk, es[..n])
  {
    forall j | 0 <= j < n && es[..n][j].primitiveType != OtherType
      ensures NameRooted(sk, es[..n][j].name)
    {
      assert es[..n][j] == es[j];
    }
  }

  /** A bone whose parent index points outside the skeleton does not stop the
      export when no element names it: only the named bones' chains count. */
  lemma UnnamedBrokenBone()
    ensures var sk := [Bone("a", -1, false), Bone("b", 7, false)];
      NamedBonesRooted(sk, [Element("a", TransformType, TransformContent)]) && !Rooted(sk, 1, |sk|)
  {
    var sk := [Bone("a", -1, false), Bone("b", 7, false)];
    assert FindBone(sk, "a") == Some(0);
  }

  /** The names from the root down to bone i, joined by "/". */
  function Path(sk: seq<Bone>, i: int, fuel: nat): string
    requires Rooted(sk, i, fuel)
    decreases fuel
  {
    if sk[i].parentIndex == -1 then sk[i].name else Path(sk, sk[i].parentIndex, fuel - 1) + "/" + sk[i].name
  }

  /** What Path puts before the bone's own name. */
  function Above(sk: seq<Bone>, i: int, fuel: nat): (a: string)
    requires Rooted(sk, i, fuel)
    ensures Path(sk, i, fuel) == a + sk[i].name
  {
    if sk[i].parentIndex == -1 then "" else Path(sk, sk[i].parentIndex, fuel - 1) + "/"
  }

  /** GetBonePath's result: "" for an unknown name, else the path of the
      first bone of that name. */
  function BonePath(sk: seq<Bone>, name: string): string
    requires NameRooted(sk, name)
  {
    match FindBone(sk, name)
    case None => ""
    case Some(i) => Path(sk, i, |sk|)
  }

  /** The bones from a root down to bone i, each the parent of the next. */
  function Chain(sk: seq<Bone>, i: int, fuel: nat): (c: seq<int>)
    requires Rooted(sk, i, fuel)
    ensures |c| >= 1 && c[|c| - 1] == i
    ensures forall k :: 0 <= k < |c| ==> 0 <= c[k] < |sk|
    ensures sk[c[0]].parentIndex == -1
    ensures forall k :: 0 < k < |c| ==> sk[c[k]].parentIndex == c[k - 1]
    decreases fuel
  {
    if sk[i].parentIndex == -1 then [i] else Chain(sk, sk[i].parentIndex, fuel - 1) + [i]
  }

  function NamesOf(sk: seq<Bone>, c: seq<int>): (ns: seq<string>)
    requires forall k :: 0 <= k < |c| ==> 0 <= c[k] < |sk|
    ensures |ns| == |c|
  {
    seq(|c|, k requires 0 <= k < |c| => sk[c[k]].name)
  }

  /** The strings one after another with sep between neighbours. */
  function Join(ss: seq<string>, sep: string): string
    requires |ss| >= 1
  {
    if |ss| == 1 then ss[0] else Join(ss[..|ss| - 1], sep) + sep + ss[|ss| - 1]
  }

  /** A bone's path is the names along its chain from the root, joined by "/". */
  lemma {:induction false} PathIsJoinedChain(sk: seq<Bone>, i: int, fuel: nat)
    requires Rooted(sk, i, fuel)
    ensures Path(sk, i, fuel) == Join(NamesOf(sk, Chain(sk, i, fuel)), "/")
    decreases fuel
  {
    var c := Chain(sk, i, fuel);
    if sk[i].parentIndex != -1 {
      var p := sk[i].parentIndex;
      PathIsJoinedChain(sk, p, fuel - 1);
      assert NamesOf(sk, c)[..|c| - 1] == NamesOf(sk, Chain(sk, p, fuel - 1));
    }
  }

  /** A bone's path ends with its own name. */
  lemma PathEndsWithName(sk: seq<Bone>, i: int, fuel: nat)
    requires Rooted(sk, i, fuel)
    ensures var p, n := Path(sk, i, fuel), sk[i].name; |n| <= |p| && p[|p| - |n|..] == n
  {
    var a := Above(sk, i, fuel);
    assert (a + sk[i].name)[|a|..] == sk[i].name;
  }

  // ----- Sampled curves -----

  /** The keyframes Add(Frame / 30f, value) for Frame = 0 .. n - 1. */
  function Samples(s: Sampler, c: Channel, n: int): (ks: seq<KeyFrame>)
    ensures |ks| == if n < 0 then 0 else n
    decreases n
  {
    if n <= 0 then [] else Samples(s, c, n - 1) + [KeyFrame((n - 1) as real / 30.0, ValueAt(s, c, n - 1), Zero, Zero)]
  }

  /** Keyframe f is at time f / 30 with the value at frame f and no slopes, so
      the times increase. */
  lemma {:induction false} SamplesAt(s: Sampler, c: Channel, n: int)
    ensures forall f :: 0 <= f < |Samples(s, c, n)| ==>
      Samples(s, c, n)[f] == KeyFrame(f as real / 30.0, ValueAt(s, c, f), Zero, Zero)
    ensures forall f, g :: 0 <= f < g < |Samples(s, c, n)| ==> Samples(s, c, n)[f].time < Samples(s, c, n)[g].time
    decreases n
  {
    if n > 0 {
      SamplesAt(s, c, n - 1);
    }
  }

  /** The keyframes a builder adds for an element: one per frame when its
      content is a transform, none otherwise. */
  function Keys(s: Sampler, c: Channel, content: Content, n: int): (ks: seq<KeyFrame>)
  {
    if content.OtherContent? then [] else Samples(s, c, n)
  }

  // ----- Slopes -----

  /** The keyframe before i, the last one before the first. */
  function Prev(i: nat, n: nat): (r: nat)
    requires i < n
    ensures r < n
  {
    if i == 0 then n - 1 else i - 1
  }

  /** The keyframe after i, the first one after the last. */
  function Next(i: nat, n: nat): (r: nat)
    requires i < n
    ensures r < n
  {
    if i == n - 1 then 0 else i + 1
  }

  /** n - 1 + n is one whole n above n - 1. */
  lemma ModLast(n: nat)
    requires 0 < n
    ensures (n - 1) % n == n - 1
  {
  }

  /** r + n leaves remainder r, and r itself leaves r. */
  lemma ModShift(r: nat, n: nat)
    requires r < n
    ensures (r + n) % n == r && r % n == r
  {
    assert (r + n) / n == 1;
    assert r / n == 0;
  }

  /** The loops' neighbour indices (i - 1 + n) % n and (i + 1) % n are Prev and
      Next, so both lie in the list. */
  lemma NeighboursInRange(i: nat, n: nat)
    requires i < n
    ensures 0 <= (i - 1 + n) % n < n && (i - 1 + n) % n == Prev(i, n)
    ensures 0 <= (i + 1) % n < n && (i + 1) % n == Next(i, n)
  {
    if i == 0 {
      ModLast(n);
    } else {
      ModShift(i - 1, n);
    }
    if i == n - 1 {
      ModShift(0, n);
    } else {
      ModShift(i + 1, n);
    }
  }

  /** The slope from value v0 at time t0 to value v1 at time t1. */
  function Slope(t0: real, v0: Vector3, t1: real, v1: Vector3, div: (real, real) -> real): Vector3
  {
    Quot(Sub(v1, v0), t1 - t0, div)
  }

  /** Keyframe i with its slopes set from its neighbours. */
  function SlopedAt(ks: seq<KeyFrame>, i: nat, div: (real, real) -> real): KeyFrame
    requires i < |ks|
  {
    var p, k, q := ks[Prev(i, |ks|)], ks[i], ks[Next(i, |ks|)];
    k.(inSlope := Slope(p.time, p.value, k.time, k.value, div), outSlope := Slope(k.time, k.value, q.time, q.value, div))
  }

  /** The keyframes after CalculateSlopes. */
  function Slopes(ks: seq<KeyFrame>, div: (real, real) -> real): (r: seq<KeyFrame>)
    ensures |r| == |ks|
  {
    seq(|ks|, i requires 0 <= i < |ks| => SlopedAt(ks, i, div))
  }

  /** Slopes keeps every time and value, so a second pass changes nothing. */
  lemma SlopesIdempotent(ks: seq<KeyFrame>, div: (real, real) -> real)
    ensures forall i :: 0 <= i < |ks| ==> Slopes(ks, div)[i].time == ks[i].time && Slopes(ks, div)[i].value == ks[i].value
    ensures Slopes(Slopes(ks, div), div) == Slopes(ks, div)
  {
    var r := Slopes(ks, div);
    forall i | 0 <= i < |ks|
      ensures Slopes(r, div)[i] == r[i]
    {
      var p, q := Prev(i, |ks|), Next(i, |ks|);
      assert r[p].time == ks[p].time && r[p].value == ks[p].value;
      assert r[q].time == ks[q].time && r[q].value == ks[q].value;
    }
  }

  // ----- Rotation unwrapping -----

  /** CorrectRotation's default threshold. */
  const Threshold: real := 250.0

  /** One component against the previous keyframe's: a jump down by more
      than the threshold gains a turn, a jump up by more loses one. */
  function Unwrap(prev: real, cur: real, th: real): real
  {
    if prev - cur > th then cur + 360.0 else if prev - cur < -th then cur - 360.0 else cur
  }

  function UnwrapVector(prev: Vector3, cur: Vector3, th: real): Vector3
  {
    Vector3(Unwrap(prev.x, cur.x, th), Unwrap(prev.y, cur.y, th), Unwrap(prev.z, cur.z, th))
  }

  /** The first k keyframes after CorrectRotation: the first is compared
      with the last keyframe as it was, each later one with its corrected
      predecessor. */
  function Rotated(ks: seq<KeyFrame>, k: nat, th: real): (r: seq<KeyFrame>)
    requires k <= |ks|
    ensures |r| == k
    decreases k
  {
    if k == 0 then []
    else
      var r := Rotated(ks, k - 1, th);
      var prev := if k == 1 then ks[|ks| - 1].value else r[k - 2].value;
      r + [ks[k - 1].(value := UnwrapVector(prev, ks[k - 1].value, th))]
  }

  /** a differs from b by a whole turn up, down, or not at all. */
  predicate Turned(a: real, b: real)
  {
    a == b + 360.0 || a == b - 360.0 || a == b
  }

  /** CorrectRotation keeps times and slopes and moves each component of
      each value by +360, -360 or 0. */
  lemma {:induction false} RotatedTurns(ks: seq<KeyFrame>, k: nat, th: real)
    requires k <= |ks|
    ensures forall i :: 0 <= i < k ==>
      var a, b := Rotated(ks, k, th)[i], ks[i];
      a.time == b.time && a.inSlope == b.inSlope && a.outSlope == b.outSlope
      && Turned(a.value.x, b.value.x) && Turned(a.value.y, b.value.y) && Turned(a.value.z, b.value.z)
    decreases k
  {
    if k > 0 {
      RotatedTurns(ks, k - 1, th);
      assert Rotated(ks, k, th)[..k - 1] == Rotated(ks, k - 1, th);
    }
  }

  /** No component jumps by more than th from keyframe i to the next (the
      last wrapping to the first). */
  predicate Smooth(ks: seq<KeyFrame>, th: real)
  {
    forall i :: 0 <= i < |ks| ==>
      var a, b := ks[Prev(i, |ks|)].value, ks[i].value;
      -th <= a.x - b.x <= th && -th <= a.y - b.y <= th && -th <= a.z - b.z <= th
  }

  /** CorrectRotation leaves a curve without jumps unchanged. */
  lemma {:induction false} SmoothUnchanged(ks: seq<KeyFrame>, k: nat, th: real)
    requires k <= |ks| && Smooth(ks, th)
    ensures Rotated(ks, k, th) == ks[..k]
    decreases k
  {
    if k > 0 {
      SmoothUnchanged(ks, k - 1, th);
      assert Prev(k - 1, |ks|) == if k == 1 then |ks| - 1 else k - 2;
      assert ks[..k] == ks[..k - 1] + [ks[k - 1]];
    }
  }

  /** A bone that is not a root has its parent in the skeleton. */
  lemma ParentInRange(sk: seq<Bone>, i: int, fuel: nat)
    requires Rooted(sk, i, fuel) && sk[i].parentIndex != -1
    ensures 0 <= sk[i].parentIndex < |sk|
  {
    assert Rooted(sk, sk[i].parentIndex, fuel - 1);
  }

  // ----- The clip -----

  class ANIMAnimationClip {
    var duration: real
    var name: string
    var eulerCurves: seq<ANIMCurve>
    var positionCurves: seq<ANIMCurve>
    var scaleCurves: seq<ANIMCurve>

    /** new ANIMAnimationClip(duration, name): no curves yet. The exporter
        passes the default name "Animation_0". */
    constructor (duration: real, name: string)
      ensures this.duration == duration && this.name == name
      ensures eulerCurves == [] && positionCurves == [] && scaleCurves == []
    {
      this.duration := duration;
      this.name := name;
      eulerCurves := [];
      positionCurves := [];
      scaleCurves := [];
    }
  }

  /** No curve occurs twice in the list. */
  predicate Distinct(cs: seq<ANIMCurve>)
  {
    forall i, j :: 0 <= i < j < |cs| ==> cs[i] != cs[j]
  }

  /** No curve is in both lists. */
  predicate Apart(a: seq<ANIMCurve>, b: seq<ANIMCurve>)
  {
    forall i, j :: 0 <= i < |a| && 0 <= j < |b| ==> a[i] != b[j]
  }

  /** Three curve lists without a repeated or shared curve. */
  predicate Separate(p: seq<ANIMCurve>, s: seq<ANIMCurve>, e: seq<ANIMCurve>)
  {
    Distinct(p) && Distinct(s) && Distinct(e) && Apart(p, s) && Apart(p, e) && Apart(s, e)
  }

  /** A curve in none of three separate lists can join any one of them. */
  lemma SeparateAppend(p: seq<ANIMCurve>, s: seq<ANIMCurve>, e: seq<ANIMCurve>, c: ANIMCurve, kind: CurveKind)
    requires Separate(p, s, e) && c !in p && c !in s && c !in e
    ensures kind == Position ==> Separate(p + [c], s, e)
    ensures kind == Scale ==> Separate(p, s + [c], e)
    ensures kind == Euler ==> Separate(p, s, e + [c])
  {
  }

  /** What one curve of the clip holds: its path and its keyframes. */
  datatype CurveSpec = CurveSpec(path: string, keyFrames: seq<KeyFrame>)

  /** The curves hold, in order, the paths and keyframes of specs, each with
      attribute "". */
  predicate Matches(cs: seq<ANIMCurve>, specs: seq<CurveSpec>)
    reads cs
  {
    |cs| == |specs|
    && forall j :: 0 <= j < |cs| ==>
      cs[j].path == specs[j].path && cs[j].attribute == "" && cs[j].keyFrames == specs[j].keyFrames
  }

  /** The curves after the constructor's passes: CalculateSlopes on every
      list, preceded by CorrectRotation on the Euler list. */
  function Finish(specs: seq<CurveSpec>, rotate: bool, div: (real, real) -> real): seq<CurveSpec>
  {
    seq(|specs|, j requires 0 <= j < |specs| =>
      var ks := specs[j].keyFrames;
      specs[j].(keyFrames := Slopes(if rotate then Rotated(ks, |ks|, Threshold) else ks, div)))
  }

  /** Every curve of the list is new. */
  twostate predicate AllFresh(new cs: seq<ANIMCurve>)
  {
    forall i :: 0 <= i < |cs| ==> fresh(cs[i])
  }

  /** Each curve of the list is where it was in the old one, or new. */
  twostate predicate Kept(new cs: seq<ANIMCurve>, old0: seq<ANIMCurve>)
  {
    forall j :: 0 <= j < |cs| ==> (j < |old0| && cs[j] == old0[j]) || fresh(cs[j])
  }

  /** The three curve lists of the clip. */
  datatype CurveKind = Position | Euler | Scale

  class ANIM {
    const skeleton: seq<Bone>
    const elements: seq<Element>
    const framesCount: int
    const clip: ANIMAnimationClip
    const sampler: Sampler

    /** The keyframes the builder of that kind samples for elem: translations
        need a known bone, scales a known bone with a parent, and content
        other than a transform gives none. */
    function KeysOf(elem: Element, kind: CurveKind): (ks: seq<KeyFrame>)
      requires NameRooted(skeleton, elem.name)
      ensures ks == [] || |ks| == framesCount
    {
      var found := FindBone(skeleton, elem.name);
      match kind
      case Position =>
        if found.None? then [] else Keys(sampler, TranslationOf(elem, skeleton[found.value]), elem.content, framesCount)
      case Euler =>
        Keys(sampler, RotationOf(elem), elem.content, framesCount)
      case Scale =>
        if found.None? || skeleton[found.value].parentIndex == -1 then []
        else
          ParentInRange(skeleton, found.value, |skeleton|);
          var bone := skeleton[found.value];
          var parent := skeleton[bone.parentIndex];
          Keys(sampler, ScaleOf(elem, bone, parent, FindElement(elements, parent.name)), elem.content, framesCount)
    }

    /** The curve the builder of that kind adds for elem, if it samples any
        keyframe: named by the element's bone path. */
    function AddedBy(elem: Element, kind: CurveKind): (r: seq<CurveSpec>)
      requires NameRooted(skeleton, elem.name)
      ensures |r| <= 1 && forall j :: 0 <= j < |r| ==> |r[j].keyFrames| == framesCount
    {
      var ks := KeysOf(elem, kind);
      if ks == [] then [] else [CurveSpec(BonePath(skeleton, elem.name), ks)]
    }

    /** The curves of that kind the builders add for es, in order: those of
        each Transform or QuatTransform element. Each has framesCount
        keyframes. */
    function Expected(es: seq<Element>, kind: CurveKind): (r: seq<CurveSpec>)
      requires NamedBonesRooted(skeleton, es)
      ensures forall j :: 0 <= j < |r| ==> |r[j].keyFrames| == framesCount
    {
      if es == [] then []
      else
        NamedBonesPrefix(skeleton, es, |es| - 1);
        var e := es[|es| - 1];
        Expected(es[..|es| - 1], kind) + (if e.primitiveType != OtherType then AddedBy(e, kind) else [])
    }

    /** Runs the builders over SklAnim.Elements, then the slope and rotation
        passes. */
    constructor (skeleton: seq<Bone>, elements: seq<Element>, sklFramesCount: real, sampler: Sampler, div: (real, real) -> real)
      requires NamedBonesRooted(skeleton, elements)
      ensures this.skeleton == skeleton && this.elements == elements && this.sampler == sampler
      ensures framesCount == Truncate(sklFramesCount) + 1
      ensures fresh(clip) && clip.duration == sklFramesCount / 30.0 && clip.name == "Animation_0"
      ensures Matches(clip.positionCurves, Finish(Expected(elements, Position), false, div))
      ensures Matches(clip.eulerCurves, Finish(Expected(elements, Euler), true, div))
      ensures Matches(clip.scaleCurves, Finish(Expected(elements, Scale), false, div))
    {
      this.skeleton := skeleton;
      this.elements := elements;
      this.sampler := sampler;
      framesCount := Truncate(sklFramesCount) + 1;
      clip := new ANIMAnimationClip(sklFramesCount / 30.0, "Animation_0");
      new;
      AddAllCurves();
      Passes(div, Expected(elements, Position), Expected(elements, Euler), Expected(elements, Scale));
    }

    /** The passes after the builders: CalculateSlopes over the position and
        scale curves, then CorrectRotation and CalculateSlopes over the Euler
        curves. */
    method Passes(div: (real, real) -> real, ghost ps: seq<CurveSpec>, ghost es: seq<CurveSpec>, ghost ss: seq<CurveSpec>)
      requires Separate(clip.positionCurves, clip.scaleCurves, clip.eulerCurves)
      requires Matches(clip.positionCurves, ps) && Matches(clip.eulerCurves, es) && Matches(clip.scaleCurves, ss)
      modifies set c | c in clip.positionCurves, set c | c in clip.scaleCurves, set c | c in clip.eulerCurves
      ensures Matches(clip.positionCurves, Finish(ps, false, div))
      ensures Matches(clip.eulerCurves, Finish(es, true, div))
      ensures Matches(clip.scaleCurves, Finish(ss, false, div))
    {
      SlopesEach(clip.positionCurves, div);
      SlopesEach(clip.scaleCurves, div);
      RotateEach(clip.eulerCurves);
      SlopesEach(clip.eulerCurves, div);
    }

    /** The constructor's loop over SklAnim.Elements: the three builders
        for each Transform or QuatTransform element. */
    method AddAllCurves()
      requires NamedBonesRooted(skeleton, elements)
      requires clip.positionCurves == [] && clip.eulerCurves == [] && clip.scaleCurves == []
      modifies clip
      ensures clip.duration == old(clip.duration) && clip.name == old(clip.name)
      ensures Separate(clip.positionCurves, clip.scaleCurves, clip.eulerCurves)
      ensures Matches(clip.positionCurves, Expected(elements, Position)) && AllFresh(clip.positionCurves)
      ensures Matches(clip.eulerCurves, Expected(elements, Euler)) && AllFresh(clip.eulerCurves)
      ensures Matches(clip.scaleCurves, Expected(elements, Scale)) && AllFresh(clip.scaleCurves)
    {
      for i := 0 to |elements|
        invariant NamedBonesRooted(skeleton, elements[..i])
        invariant clip.duration == old(clip.duration) && clip.name == old(clip.name)
        invariant Separate(clip.positionCurves, clip.scaleCurves, clip.eulerCurves)
        invariant Matches(clip.positionCurves, Expected(elements[..i], Position)) && AllFresh(clip.positionCurves)
        invariant Matches(clip.eulerCurves, Expected(elements[..i], Euler)) && AllFresh(clip.eulerCurves)
        invariant Matches(clip.scaleCurves, Expected(elements[..i], Scale)) && AllFresh(clip.scaleCurves)
      {
        AddCounted(i);
        NamedBonesPrefix(skeleton, elements, i + 1);
      }
      assert elements[..|elements|] == elements;
    }

    /** One pass of the constructor's loop: the builders run for element i
        when it is a Transform or QuatTransform. */
    method AddCounted(i: int)
      requires NamedBonesRooted(skeleton, elements) && 0 <= i < |elements|
      requires Separate(clip.positionCurves, clip.scaleCurves, clip.eulerCurves)
      requires Matches(clip.positionCurves, Expected(elements[..i], Position))
      requires Matches(clip.eulerCurves, Expected(elements[..i], Euler))
      requires Matches(clip.scaleCurves, Expected(elements[..i], Scale))
      modifies clip
      ensures clip.duration == old(clip.duration) && clip.name == old(clip.name)
      ensures Separate(clip.positionCurves, clip.scaleCurves, clip.eulerCurves)
      ensures Matches(clip.positionCurves, Expected(elements[..i + 1], Position))
      ensures Matches(clip.eulerCurves, Expected(elements[..i + 1], Euler))
      ensures Matches(clip.scaleCurves, Expected(elements[..i + 1], Scale))
      ensures Kept(clip.positionCurves, old(clip.positionCurves))
      ensures Kept(clip.eulerCurves, old(clip.eulerCurves))
      ensures Kept(clip.scaleCurves, old(clip.scaleCurves))
    {
      var elem := elements[i];
      NamedBonesPrefix(skeleton, elements, i);
      NamedBonesPrefix(skeleton, elements, i + 1);
      ExpectedStep(elements, i);
      if elem.primitiveType != TransformType && elem.primitiveType != QuatTransformType {
        return;
      }
      AddElementCurves(elem, Expected(elements[..i], Position), Expected(elements[..i], Euler), Expected(elements[..i], Scale));
    }

    /** Expected over one more element. */
    lemma ExpectedStep(es: seq<Element>, i: int)
      requires NamedBonesRooted(skeleton, es) && 0 <= i < |es|
      ensures NamedBonesRooted(skeleton, es[..i]) && NamedBonesRooted(skeleton, es[..i + 1])
      ensures forall kind ::
        Expected(es[..i + 1], kind) == Expected(es[..i], kind) + (if es[i].primitiveType != OtherType then AddedBy(es[i], kind) else [])
    {
      NamedBonesPrefix(skeleton, es, i);
      NamedBonesPrefix(skeleton, es, i + 1);
      assert es[..i + 1][..i] == es[..i];
    }

    /** The three builders for one element, in the constructor's order. */
    method AddElementCurves(elem: Element, ghost ps: seq<CurveSpec>, ghost es: seq<CurveSpec>, ghost ss: seq<CurveSpec>)
      requires NameRooted(skeleton, elem.name)
      requires Separate(clip.positionCurves, clip.scaleCurves, clip.eulerCurves)
      requires Matches(clip.positionCurves, ps) && Matches(clip.eulerCurves, es) && Matches(clip.scaleCurves, ss)
      modifies clip
      ensures clip.duration == old(clip.duration) && clip.name == old(clip.name)
      ensures Separate(clip.positionCurves, clip.scaleCurves, clip.eulerCurves)
      ensures Matches(clip.positionCurves, ps + AddedBy(elem, Position))
      ensures Matches(clip.eulerCurves, es + AddedBy(elem, Euler))
      ensures Matches(clip.scaleCurves, ss + AddedBy(elem, Scale))
      ensures Kept(clip.positionCurves, old(clip.positionCurves))
      ensures Kept(clip.scaleCurves, old(clip.scaleCurves))
      ensures Kept(clip.eulerCurves, old(clip.eulerCurves))
    {
      AddTranslationCurve(elem, ps, es, ss);
      ghost var ps1 := ps + AddedBy(elem, Position);
      AddScaleCurves(elem, ps1, es, ss);
      AddRotationCurve(elem, ps1, es, ss + AddedBy(elem, Scale));
    }

    /** GetBonePath(BoneName). */
    method GetBonePath(boneName: string) returns (ret: string)
      requires NameRooted(skeleton, boneName)
      ensures ret == BonePath(skeleton, boneName)
    {
      var found := FindBone(skeleton, boneName);
      if found.None? {
        return "";
      }
      var bone := found.value;
      ret := skeleton[bone].name;
      ghost var fuel: nat := |skeleton|;
      while skeleton[bone].parentIndex != -1
        invariant Rooted(skeleton, bone, fuel)
        invariant Above(skeleton, bone, fuel) + ret == Path(skeleton, found.value, |skeleton|)
        decreases fuel
      {
        var parent := skeleton[bone].parentIndex;
        ghost var a := Above(skeleton, parent, fuel - 1);
        assert Above(skeleton, bone, fuel) == a + skeleton[parent].name + "/";
        ghost var r0 := ret;
        bone := parent;
        fuel := fuel - 1;
        ret := skeleton[bone].name + "/" + ret;
        assert a + ret == a + skeleton[bone].name + "/" + r0;
      }
    }

    /** Samples channel c of an element with the given content into a new
        curve, one keyframe per frame. */
    method SampleCurve(path: string, c: Channel, content: Content) returns (curves: ANIMCurve)
      ensures fresh(curves) && curves.path == path && curves.attribute == ""
      ensures curves.keyFrames == Keys(sampler, c, content, framesCount)
    {
      curves := new ANIMCurve(path, "");
      var frame := 0;
      while frame < framesCount
        invariant frame == 0 || frame <= framesCount
        invariant fresh(curves) && curves.path == path && curves.attribute == ""
        invariant curves.keyFrames == Keys(sampler, c, content, frame)
      {
        if !content.OtherContent? {
          curves.Add(frame as real / 30.0, ValueAt(sampler, c, frame));
        }
        frame := frame + 1;
      }
    }

    /** AddTranslationCurve(Elem). */
    method AddTranslationCurve(elem: Element, ghost ps: seq<CurveSpec>, ghost es: seq<CurveSpec>, ghost ss: seq<CurveSpec>)
      requires NameRooted(skeleton, elem.name) && Separate(clip.positionCurves, clip.scaleCurves, clip.eulerCurves)
      requires Matches(clip.positionCurves, ps) && Matches(clip.eulerCurves, es) && Matches(clip.scaleCurves, ss)
      modifies clip
      ensures clip.duration == old(clip.duration) && clip.name == old(clip.name)
      ensures Separate(clip.positionCurves, clip.scaleCurves, clip.eulerCurves)
      ensures clip.eulerCurves == old(clip.eulerCurves) && clip.scaleCurves == old(clip.scaleCurves)
      ensures Kept(clip.positionCurves, old(clip.positionCurves))
      ensures Matches(clip.positionCurves, ps + AddedBy(elem, Position))
      ensures Matches(clip.eulerCurves, es) && Matches(clip.scaleCurves, ss)
    {
      var sklBone := FindBone(skeleton, elem.name);
      var path := GetBonePath(elem.name);
      if sklBone.None? {
        return;
      }
      var curves := SampleCurve(path, TranslationOf(elem, skeleton[sklBone.value]), elem.content);
      if |curves.keyFrames| > 0 {
        SeparateAppend(clip.positionCurves, clip.scaleCurves, clip.eulerCurves, curves, Position);
        clip.positionCurves := clip.positionCurves + [curves];
      }
    }

    /** AddRotationCurve(Elem). */
    method AddRotationCurve(elem: Element, ghost ps: seq<CurveSpec>, ghost es: seq<CurveSpec>, ghost ss: seq<CurveSpec>)
      requires NameRooted(skeleton, elem.name) && Separate(clip.positionCurves, clip.scaleCurves, clip.eulerCurves)
      requires Matches(clip.positionCurves, ps) && Matches(clip.eulerCurves, es) && Matches(clip.scaleCurves, ss)
      modifies clip
      ensures clip.duration == old(clip.duration) && clip.name == old(clip.name)
      ensures Separate(clip.positionCurves, clip.scaleCurves, clip.eulerCurves)
      ensures clip.positionCurves == old(clip.positionCurves) && clip.scaleCurves == old(clip.scaleCurves)
      ensures Kept(clip.eulerCurves, old(clip.eulerCurves))
      ensures Matches(clip.eulerCurves, es + AddedBy(elem, Euler))
      ensures Matches(clip.positionCurves, ps) && Matches(clip.scaleCurves, ss)
    {
      var path := GetBonePath(elem.name);
      var curves := SampleCurve(path, RotationOf(elem), elem.content);
      if |curves.keyFrames| > 0 {
        SeparateAppend(clip.positionCurves, clip.scaleCurves, clip.eulerCurves, curves, Euler);
        clip.eulerCurves := clip.eulerCurves + [curves];
      }
    }

    /** AddScaleCurves(Elem): only for a known bone that has a parent. */
    method AddScaleCurves(elem: Element, ghost ps: seq<CurveSpec>, ghost es: seq<CurveSpec>, ghost ss: seq<CurveSpec>)
      requires NameRooted(skeleton, elem.name) && Separate(clip.positionCurves, clip.scaleCurves, clip.eulerCurves)
      requires Matches(clip.positionCurves, ps) && Matches(clip.eulerCurves, es) && Matches(clip.scaleCurves, ss)
      modifies clip
      ensures clip.duration == old(clip.duration) && clip.name == old(clip.name)
      ensures Separate(clip.positionCurves, clip.scaleCurves, clip.eulerCurves)
      ensures clip.positionCurves == old(clip.positionCurves) && clip.eulerCurves == old(clip.eulerCurves)
      ensures Kept(clip.scaleCurves, old(clip.scaleCurves))
      ensures Matches(clip.scaleCurves, ss + AddedBy(elem, Scale))
      ensures Matches(clip.positionCurves, ps) && Matches(clip.eulerCurves, es)
    {
      var sklBone := FindBone(skeleton, elem.name);
      if sklBone.None? || skeleton[sklBone.value].parentIndex == -1 {
        return;
      }
      ParentInRange(skeleton, sklBone.value, |skeleton|);
      var bone := skeleton[sklBone.value];
      var parent := skeleton[bone.parentIndex];
      var pElem := FindElement(elements, parent.name);
      var path := GetBonePath(elem.name);
      var curves := SampleCurve(path, ScaleOf(elem, bone, parent, pElem), elem.content);
      if |curves.keyFrames| > 0 {
        SeparateAppend(clip.positionCurves, clip.scaleCurves, clip.eulerCurves, curves, Scale);
        clip.scaleCurves := clip.scaleCurves + [curves];
      }
    }
  }

  /** CalculateSlopes(curves). */
  method CalculateSlopes(curves: ANIMCurve, div: (real, real) -> real)
    modifies curves
    ensures curves.keyFrames == Slopes(old(curves.keyFrames), div)
    ensures curves.path == old(curves.path) && curves.attribute == old(curves.attribute)
  {
    ghost var ks := curves.keyFrames;
    var keyFrames := curves.keyFrames;
    var n := |keyFrames|;
    for i := 0 to n
      invariant |keyFrames| == n && unchanged(curves)
      invariant forall j :: 0 <= j < n ==> keyFrames[j].time == ks[j].time && keyFrames[j].value == ks[j].value
      invariant forall j :: 0 <= j < i ==> keyFrames[j] == SlopedAt(ks, j, div)
      invariant forall j :: i <= j < n ==> keyFrames[j] == ks[j]
    {
      NeighboursInRange(i, n);
      var prevKeyFrame := keyFrames[(i - 1 + n) % n];
      var keyFrame := keyFrames[i];
      var nextKeyFrame := keyFrames[(i + 1) % n];
      keyFrame := keyFrame.(inSlope := Slope(prevKeyFrame.time, prevKeyFrame.value, keyFrame.time, keyFrame.value, div));
      keyFrame := keyFrame.(outSlope := Slope(keyFrame.time, keyFrame.value, nextKeyFrame.time, nextKeyFrame.value, div));
      assert keyFrame == SlopedAt(ks, i, div);
      keyFrames := keyFrames[i := keyFrame];
    }
    curves.keyFrames := keyFrames;
  }

  /** One pass of CorrectRotation's loop over the list as the first i passes
      left it: the predecessor it reads is the last keyframe as it was, or the
      corrected keyframe i - 1, and writing keyframe i extends the corrected
      prefix by one. */
  lemma RotatedStep(ks: seq<KeyFrame>, i: nat, th: real, kf: seq<KeyFrame>)
    requires i < |ks| && kf == Rotated(ks, i, th) + ks[i..]
    ensures |kf| == |ks| && kf[i] == ks[i]
    ensures kf[Prev(i, |ks|)].value == if i == 0 then ks[|ks| - 1].value else Rotated(ks, i, th)[i - 1].value
    ensures kf[i := kf[i].(value := UnwrapVector(kf[Prev(i, |ks|)].value, kf[i].value, th))]
      == Rotated(ks, i + 1, th) + ks[i + 1..]
  {
    var r := Rotated(ks, i, th);
    assert kf[i] == ks[i];
    if i == 0 {
      assert kf[|ks| - 1] == ks[|ks| - 1];
    } else {
      assert kf[i - 1] == r[i - 1];
    }
    var next := kf[i := kf[i].(value := UnwrapVector(kf[Prev(i, |ks|)].value, kf[i].value, th))];
    var want := Rotated(ks, i + 1, th) + ks[i + 1..];
    assert |next| == |want|;
    forall j | 0 <= j < |next|
      ensures next[j] == want[j]
    {
      if j < i {
        assert next[j] == r[j];
      } else if j > i {
        assert next[j] == ks[j];
      }
    }
  }

  /** CorrectRotation(curves, threshold). */
  method CorrectRotation(curves: ANIMCurve, threshold: real)
    modifies curves
    ensures curves.keyFrames == Rotated(old(curves.keyFrames), |old(curves.keyFrames)|, threshold)
    ensures curves.path == old(curves.path) && curves.attribute == old(curves.attribute)
  {
    ghost var ks := curves.keyFrames;
    var keyFrames := curves.keyFrames;
    var n := |keyFrames|;
    for i := 0 to n
      invariant keyFrames == Rotated(ks, i, threshold) + ks[i..] && unchanged(curves)
    {
      keyFrames := CorrectAt(keyFrames, i, threshold, ks);
    }
    assert ks[n..] == [];
    curves.keyFrames := keyFrames;
  }

  /** The body of CorrectRotation's loop: keyframe i is corrected against
      keyframe (i - 1 + n) % n, which is the last keyframe as it was for the
      first pass and the corrected keyframe i - 1 after it. */
  method CorrectAt(keyFrames: seq<KeyFrame>, i: nat, threshold: real, ghost ks: seq<KeyFrame>) returns (next: seq<KeyFrame>)
    requires i < |ks| && keyFrames == Rotated(ks, i, threshold) + ks[i..]
    ensures next == Rotated(ks, i + 1, threshold) + ks[i + 1..]
  {
    var n := |keyFrames|;
    NeighboursInRange(i, n);
    RotatedStep(ks, i, threshold, keyFrames);
    var prevKeyFrame := keyFrames[(i - 1 + n) % n];
    var keyFrame := keyFrames[i];
    var value := Corrected(prevKeyFrame.value, keyFrame.value, threshold);
    next := keyFrames[i := keyFrame.(value := value)];
  }

  /** The three comparisons of CorrectRotation's loop body. */
  method Corrected(prev: Vector3, cur: Vector3, threshold: real) returns (value: Vector3)
    ensures value == UnwrapVector(prev, cur, threshold)
  {
    value := cur;
    if prev.x - value.x > threshold {
      value := value.(x := value.x + 360.0);
    } else if prev.x - value.x < -threshold {
      value := value.(x := value.x - 360.0);
    }
    if prev.y - value.y > threshold {
      value := value.(y := value.y + 360.0);
    } else if prev.y - value.y < -threshold {
      value := value.(y := value.y - 360.0);
    }
    if prev.z - value.z > threshold {
      value := value.(z := value.z + 360.0);
    } else if prev.z - value.z < -threshold {
      value := value.(z := value.z - 360.0);
    }
  }

  /** The slope pass applied to each curve of a list of distinct curves, in order. */
  method SlopesEach(cs: seq<ANIMCurve>, div: (real, real) -> real)
    requires Distinct(cs)
    modifies set c | c in cs
    ensures forall i :: 0 <= i < |cs| ==> cs[i].keyFrames == Slopes(old(cs[i].keyFrames), div)
    ensures forall i :: 0 <= i < |cs| ==> cs[i].path == old(cs[i].path) && cs[i].attribute == old(cs[i].attribute)
  {
    for i := 0 to |cs|
      invariant forall j :: 0 <= j < i ==> cs[j].keyFrames == Slopes(old(cs[j].keyFrames), div)
      invariant forall j :: i <= j < |cs| ==> cs[j].keyFrames == old(cs[j].keyFrames)
      invariant forall j :: 0 <= j < |cs| ==> cs[j].path == old(cs[j].path) && cs[j].attribute == old(cs[j].attribute)
    {
      CalculateSlopes(cs[i], div);
    }
  }

  /** The rotation unwrapping applied to each curve of a list of distinct curves,
      in order, at the default threshold. */
  method RotateEach(cs: seq<ANIMCurve>)
    requires Distinct(cs)
    modifies set c | c in cs
    ensures forall i :: 0 <= i < |cs| ==> cs[i].keyFrames == Rotated(old(cs[i].keyFrames), |old(cs[i].keyFrames)|, Threshold)
    ensures forall i :: 0 <= i < |cs| ==> cs[i].path == old(cs[i].path) && cs[i].attribute == old(cs[i].attribute)
  {
    for i := 0 to |cs|
      invariant forall j :: 0 <= j < i ==> cs[j].keyFrames == Rotated(old(cs[j].keyFrames), |old(cs[j].keyFrames)|, Threshold)
      invariant forall j :: i <= j < |cs| ==> cs[j].keyFrames == old(cs[j].keyFrames)
      invariant forall j :: 0 <= j < |cs| ==> cs[j].path == old(cs[j].path) && cs[j].attribute == old(cs[j].attribute)
    {
      CorrectRotation(cs[i], Threshold);
    }
  }
}
