/** Ownership of texture registrations across apply, release and lobby changes, as functions on a state. */
module AppearanceModel {
  import opened Common
  import TextureLayout
  import PlayerColor

  type Owner = nat
  type Pointer = nat
  type Handle = nat
  type Color = nat

  const DEFAULT_COLOR: Color := 0x1000000
  const NULL: Pointer := 0

  /** A texture of a loaded model: its name, its header if there is one, and the bytes at its address. */
  datatype Image = Image(name: Option<string>, hasHeader: bool, pointer: Pointer, memory: nat -> Byte,
                         format: nat, width: nat, height: nat, mipmapped: bool, mipCount: nat)

  /** A model without data or without texture tables is None. */
  type Model = Option<seq<Image>>

  datatype Garment = NoGarment | Tunic | Zora

  function GarmentOf(name: string): Garment {
    if name in ["al_cap", "al_upbody", "al_lowbody"] then Tunic
    else if name in ["zl_cap", "zl_helmet", "zl_armor", "zl_armL", "zl_body", "zl_boots"] then Zora
    else NoGarment
  }

  /** What the texture service holds for a handle. */
  datatype Texture = Texture(pointer: Pointer, data: seq<Byte>, width: nat, height: nat, mips: nat, format: nat)

  datatype Replacement = Replacement(handle: Handle, color: Color)

  type Registrations = map<Pointer, Replacement>

  /** An image that an apply was given for an owner, with the colours asked for. */
  datatype Wish = Wish(owner: Owner, image: Image, outfit: Color, zora: Color)

  /** `live` is the service's side: the handles given out and not yet given back. `wishes` is the history: every image
      that an apply looked at. */
  datatype State = State(owners: map<Owner, Registrations>, live: map<Handle, Texture>, lobby: bool, wishes: seq<Wish>)

  const NOTHING := State(map[], map[], false, [])

  // ---- one image ----

  function Mips(image: Image): nat {
    if image.mipmapped && image.mipCount > 1 then image.mipCount else 1
  }

  function Bytes(image: Image): nat {
    TextureLayout.TextureSize(image.format, image.width, image.height, Mips(image))
  }

  /** The colour asked for an image, if it is part of a garment and there is something to replace. */
  function Asked(image: Image, outfit: Color, zora: Color): Option<Color> {
    if image.name.None? || GarmentOf(image.name.value).NoGarment? || !image.hasHeader || image.pointer == NULL then None
    else Some(if GarmentOf(image.name.value).Zora? then zora else outfit)
  }

  /** The bytes of the texture, which start at its pointer. */
  function Memory(image: Image): seq<Byte> { seq(Bytes(image), i requires 0 <= i => image.memory(i)) }

  /** What is registered: the native pixels, or the recoloured ones. */
  function TextureFor(image: Image, color: Color): Texture
    requires Bytes(image) != 0
  {
    var source := Memory(image);
    if color == DEFAULT_COLOR then
      Texture(image.pointer, source, image.width, image.height, Mips(image), image.format)
    else
      Texture(image.pointer,
              PlayerColor.Recolored(source, PlayerColor.Level(image.format, 0, image.width, image.height),
                                    Mips(image), color),
              image.width, image.height, Mips(image), TextureLayout.RGBA8)
  }

  /** An apply under way: the owner's registrations, the pointers seen, and how many registrations were tried and
      how many of those failed. */
  datatype Work = Work(regs: Registrations, live: map<Handle, Texture>, seen: set<Pointer>, tried: nat, failed: nat)

  /** The service's answers to the registrations of one apply, in order. It never gives out a live handle. */
  type Replies = nat -> Option<Handle>

  function Granted(live: map<Handle, Texture>, reply: Option<Handle>): Option<Handle> {
    if reply.Some? && reply.value in live then None else reply
  }

  function With(regs: Registrations, p: Pointer, r: Replacement): Registrations { regs[p := r] }

  function Visit(w: Work, image: Image, outfit: Color, zora: Color, replies: Replies): Work {
    var asked := Asked(image, outfit, zora);
    if asked.None? then w
    else
      var p := image.pointer;
      var seen := w.(seen := w.seen + {p});
      if p in w.regs && w.regs[p].color == asked.value then seen
      else if Bytes(image) == 0 then seen
      else
        var handle := Granted(w.live, replies(w.tried));
        if handle.None? then seen.(tried := w.tried + 1, failed := w.failed + 1)
        else
          var live := w.live[handle.value := TextureFor(image, asked.value)];
          seen.(tried := w.tried + 1, regs := With(w.regs, p, Replacement(handle.value, asked.value)),
                live := if p in w.regs then live - {w.regs[p].handle} else live)
  }

  function VisitAll(w: Work, images: seq<Image>, outfit: Color, zora: Color, replies: Replies): Work {
    if images == [] then w
    else Visit(VisitAll(w, images[..|images| - 1], outfit, zora, replies), images[|images| - 1], outfit, zora, replies)
  }

  function Images(models: seq<Model>): seq<Image> {
    if models == [] then []
    else
      var last := models[|models| - 1];
      Images(models[..|models| - 1]) + if last.Some? then last.value else []
  }

  function Handles(regs: Registrations): set<Handle> { set p | p in regs :: regs[p].handle }

  function Only(regs: Registrations, seen: set<Pointer>): Registrations { map p | p in regs && p in seen :: regs[p] }

  function Without(regs: Registrations, seen: set<Pointer>): Registrations {
    map p | p in regs && p !in seen :: regs[p]
  }

  function Of(s: State, owner: Owner): Registrations { if owner in s.owners then s.owners[owner] else map[] }

  function Start(s: State, owner: Owner): Work { Work(Of(s, owner), s.live, {}, 0, 0) }

  function Visited(s: State, owner: Owner, outfit: Color, zora: Color, models: seq<Model>, replies: Replies): Work {
    VisitAll(Start(s, owner), Images(models), outfit, zora, replies)
  }

  function Apply(s: State, owner: Owner, outfit: Color, zora: Color, models: seq<Model>, replies: Replies): State {
    if !s.lobby then s
    else
      var w := Visited(s, owner, outfit, zora, models, replies);
      State(s.owners[owner := Only(w.regs, w.seen)], w.live - Handles(Without(w.regs, w.seen)), s.lobby,
            s.wishes + WishesOf(owner, outfit, zora, Images(models)))
  }

  function WishesOf(owner: Owner, outfit: Color, zora: Color, images: seq<Image>): (wishes: seq<Wish>)
    ensures |wishes| == |images|
  {
    seq(|images|, i requires 0 <= i < |images| => Wish(owner, images[i], outfit, zora))
  }

  function Release(s: State, owner: Owner): State {
    if owner !in s.owners then s else s.(owners := s.owners - {owner}, live := s.live - Handles(s.owners[owner]))
  }

  // ---- the invariant ----

  predicate Holds(owners: map<Owner, Registrations>, o: Owner, p: Pointer, r: Replacement) {
    o in owners && p in owners[o] && owners[o][p] == r
  }

  /** The texture was made for this wish: from the memory of its image, in the colour it asks for. */
  ghost predicate MadeFor(w: Wish, o: Owner, p: Pointer, color: Color, t: Texture) {
    && w.owner == o && w.image.pointer == p && Asked(w.image, w.outfit, w.zora) == Some(color)
    && Bytes(w.image) != 0 && t == TextureFor(w.image, color)
  }

  ghost predicate Wished(ws: seq<Wish>, o: Owner, p: Pointer, color: Color, t: Texture) {
    exists i :: 0 <= i < |ws| && MadeFor(ws[i], o, p, color, t)
  }

  /** The live handles are exactly those held, each held once; and each shows what was wished for its owner, pointer
      and colour. */
  ghost predicate Balanced(owners: map<Owner, Registrations>, live: map<Handle, Texture>, ws: seq<Wish>) {
    && (forall o, p, r :: Holds(owners, o, p, r) ==> r.handle in live && Wished(ws, o, p, r.color, live[r.handle]))
    && (forall o, p, r, o', p', r' :: Holds(owners, o, p, r) && Holds(owners, o', p', r') && r.handle == r'.handle ==>
          o == o' && p == p')
    && (forall h :: h in live ==> exists o, p, r :: Holds(owners, o, p, r) && r.handle == h)
  }

  ghost predicate Inv(s: State) {
    Balanced(s.owners, s.live, s.wishes) && (!s.lobby ==> s.owners == map[])
  }

  /** Giving back exactly the handles that are no longer held keeps the balance. */
  lemma ShrinkKeeps(owners: map<Owner, Registrations>, live: map<Handle, Texture>, ws: seq<Wish>,
                    owners': map<Owner, Registrations>, gone: set<Handle>)
    requires Balanced(owners, live, ws)
    requires forall o, p, r :: Holds(owners', o, p, r) <==> Holds(owners, o, p, r) && r.handle !in gone
    ensures Balanced(owners', live - gone, ws)
  {
    hide Holds, Wished;
    forall h | h in live - gone ensures exists o, p, r :: Holds(owners', o, p, r) && r.handle == h {
      var o, p, r :| Holds(owners, o, p, r) && r.handle == h;
      assert Holds(owners', o, p, r);
    }
  }

  /** So does holding a handle that was just given out. */
  lemma GrowKeeps(owners: map<Owner, Registrations>, live: map<Handle, Texture>, ws: seq<Wish>,
                  owners': map<Owner, Registrations>, o0: Owner, p0: Pointer, r0: Replacement, t: Texture)
    requires Balanced(owners, live, ws) && r0.handle !in live && Wished(ws, o0, p0, r0.color, t)
    requires forall o: Owner, p: Pointer, r: Replacement ::
               Holds(owners', o, p, r) <==> Holds(owners, o, p, r) || (o == o0 && p == p0 && r == r0)
    ensures Balanced(owners', live[r0.handle := t], ws)
  {
    hide Holds, Wished;
    assert Holds(owners', o0, p0, r0);
    forall h | h in live ensures exists o, p, r :: Holds(owners', o, p, r) && r.handle == h {
      var o, p, r :| Holds(owners, o, p, r) && r.handle == h;
      assert Holds(owners', o, p, r);
    }
  }

  lemma DropKeeps(owners: map<Owner, Registrations>, live: map<Handle, Texture>, ws: seq<Wish>, o: Owner,
                  seen: set<Pointer>)
    requires Balanced(owners, live, ws) && o in owners
    ensures Balanced(owners[o := Only(owners[o], seen)], live - Handles(Without(owners[o], seen)), ws)
  {
    var owners' := owners[o := Only(owners[o], seen)];
    var gone := Handles(Without(owners[o], seen));
    forall a, p, r ensures Holds(owners', a, p, r) <==> Holds(owners, a, p, r) && r.handle !in gone {
      if Holds(owners', a, p, r) && r.handle in gone {
        assert Holds(owners, a, p, r);
        var q :| q in Without(owners[o], seen) && owners[o][q].handle == r.handle;
        assert Holds(owners, o, q, owners[o][q]);
      }
      if Holds(owners, a, p, r) && a == o && p !in seen { assert p in Without(owners[o], seen); }
    }
    ShrinkKeeps(owners, live, ws, owners', gone);
  }

  /** An owner without registrations may be there or not. */
  lemma EmptyKeeps(owners: map<Owner, Registrations>, live: map<Handle, Texture>, ws: seq<Wish>,
                   owners': map<Owner, Registrations>)
    requires Balanced(owners, live, ws)
    requires forall o, p, r :: Holds(owners', o, p, r) <==> Holds(owners, o, p, r)
    ensures Balanced(owners', live, ws)
  {
    ShrinkKeeps(owners, live, ws, owners', {});
    assert live - {} == live;
  }

  lemma PutKeeps(owners: map<Owner, Registrations>, live: map<Handle, Texture>, ws: seq<Wish>, o: Owner, p: Pointer,
                 r: Replacement, t: Texture)
    requires Balanced(owners, live, ws) && o in owners && r.handle !in live && Wished(ws, o, p, r.color, t)
    ensures var owners' := owners[o := With(owners[o], p, r)];
            var live' := live[r.handle := t];
            Balanced(owners', if p in owners[o] then live' - {owners[o][p].handle} else live', ws)
  {
    hide Balanced;
    var given := Handles(Without(owners[o], owners[o].Keys - {p}));
    GivenBack(owners[o], p);
    var middle := owners[o := Only(owners[o], owners[o].Keys - {p})];
    var owners' := owners[o := With(owners[o], p, r)];
    DropKeeps(owners, live, ws, o, owners[o].Keys - {p});
    GrowKeeps(middle, live - given, ws, owners', o, p, r, t);
    if p in owners[o] {
      HeldIsLive(owners, live, ws, o, p);
      assert (live - given)[r.handle := t] == live[r.handle := t] - given;
    } else {
      assert live - given == live;
    }
  }

  lemma GivenBack(regs: Registrations, p: Pointer)
    ensures Handles(Without(regs, regs.Keys - {p})) == if p in regs then {regs[p].handle} else {}
  {
    var rest := Without(regs, regs.Keys - {p});
    assert rest == if p in regs then map[p := regs[p]] else map[];
    if p in regs { assert p in rest; }
  }

  lemma HeldIsLive(owners: map<Owner, Registrations>, live: map<Handle, Texture>, ws: seq<Wish>, o: Owner, p: Pointer)
    requires Balanced(owners, live, ws) && o in owners && p in owners[o]
    ensures owners[o][p].handle in live
  {
    assert Holds(owners, o, p, owners[o][p]);
  }

  lemma MoreWishes(owners: map<Owner, Registrations>, live: map<Handle, Texture>, ws: seq<Wish>, more: seq<Wish>)
    requires Balanced(owners, live, ws)
    ensures Balanced(owners, live, ws + more)
  {
    hide Holds, MadeFor;
    forall o, p, r | Holds(owners, o, p, r) ensures Wished(ws + more, o, p, r.color, live[r.handle]) {
      var i :| 0 <= i < |ws| && MadeFor(ws[i], o, p, r.color, live[r.handle]);
      assert (ws + more)[i] == ws[i];
    }
  }

  ghost predicate WorkInv(owners: map<Owner, Registrations>, owner: Owner, w: Work, ws: seq<Wish>) {
    Balanced(owners[owner := w.regs], w.live, ws)
  }

  lemma VisitKeeps(owners: map<Owner, Registrations>, owner: Owner, w: Work, ws: seq<Wish>, image: Image, outfit: Color,
                   zora: Color, replies: Replies)
    requires WorkInv(owners, owner, w, ws) && Wish(owner, image, outfit, zora) in ws
    ensures WorkInv(owners, owner, Visit(w, image, outfit, zora, replies), ws)
  {
    hide Balanced, TextureFor, Bytes, Wished;
    var w' := Visit(w, image, outfit, zora, replies);
    var asked := Asked(image, outfit, zora);
    if w'.regs != w.regs {
      var r := w'.regs[image.pointer];
      TextureIsWished(owner, image, outfit, zora, ws);
      PutKeeps(owners[owner := w.regs], w.live, ws, owner, image.pointer, r, TextureFor(image, asked.value));
      assert owners[owner := w.regs][owner := w'.regs] == owners[owner := w'.regs];
    }
  }

  lemma TextureIsWished(owner: Owner, image: Image, outfit: Color, zora: Color, ws: seq<Wish>)
    requires Bytes(image) != 0 && Asked(image, outfit, zora).Some? && Wish(owner, image, outfit, zora) in ws
    ensures var color := Asked(image, outfit, zora).value;
            Wished(ws, owner, image.pointer, color, TextureFor(image, color))
  {
    hide TextureFor, Bytes, Asked;
    var i :| 0 <= i < |ws| && ws[i] == Wish(owner, image, outfit, zora);
    var color := Asked(image, outfit, zora).value;
    assert MadeFor(ws[i], owner, image.pointer, color, TextureFor(image, color));
  }

  lemma {:induction false} VisitAllKeeps(owners: map<Owner, Registrations>, owner: Owner, w: Work, ws: seq<Wish>,
                                         images: seq<Image>, outfit: Color, zora: Color, replies: Replies)
    requires WorkInv(owners, owner, w, ws)
    requires forall i :: 0 <= i < |images| ==> Wish(owner, images[i], outfit, zora) in ws
    ensures WorkInv(owners, owner, VisitAll(w, images, outfit, zora, replies), ws)
  {
    hide Balanced, Visit, WorkInv;
    if images != [] {
      var n := |images| - 1;
      VisitAllKeeps(owners, owner, w, ws, images[..n], outfit, zora, replies);
      VisitKeeps(owners, owner, VisitAll(w, images[..n], outfit, zora, replies), ws, images[n], outfit, zora, replies);
    }
  }

  lemma WishesAreThere(before: seq<Wish>, owner: Owner, outfit: Color, zora: Color, images: seq<Image>)
    ensures forall i :: 0 <= i < |images| ==>
              Wish(owner, images[i], outfit, zora) in before + WishesOf(owner, outfit, zora, images)
  {
    forall i | 0 <= i < |images|
      ensures Wish(owner, images[i], outfit, zora) in before + WishesOf(owner, outfit, zora, images)
    {
      assert (before + WishesOf(owner, outfit, zora, images))[|before| + i] == Wish(owner, images[i], outfit, zora);
    }
  }

  lemma ApplyKeeps(s: State, owner: Owner, outfit: Color, zora: Color, models: seq<Model>, replies: Replies)
    requires Inv(s)
    ensures Inv(Apply(s, owner, outfit, zora, models, replies))
  {
    hide Balanced, VisitAll, Images, WishesOf;
    if s.lobby {
      var w := Visited(s, owner, outfit, zora, models, replies);
      var ws := s.wishes + WishesOf(owner, outfit, zora, Images(models));
      MoreWishes(s.owners, s.live, s.wishes, WishesOf(owner, outfit, zora, Images(models)));
      if owner in s.owners {
        assert s.owners[owner := s.owners[owner]] == s.owners;
      } else {
        EmptyKeeps(s.owners, s.live, ws, s.owners[owner := map[]]);
      }
      WishesAreThere(s.wishes, owner, outfit, zora, Images(models));
      VisitAllKeeps(s.owners, owner, Start(s, owner), ws, Images(models), outfit, zora, replies);
      DropKeeps(s.owners[owner := w.regs], w.live, ws, owner, w.seen);
      assert s.owners[owner := w.regs][owner := Only(w.regs, w.seen)] == s.owners[owner := Only(w.regs, w.seen)];
    }
  }

  lemma ReleaseKeeps(s: State, owner: Owner)
    requires Balanced(s.owners, s.live, s.wishes)
    ensures Balanced(Release(s, owner).owners, Release(s, owner).live, s.wishes)
  {
    hide Balanced;
    if owner in s.owners {
      DropKeeps(s.owners, s.live, s.wishes, owner, {});
      assert Without(s.owners[owner], {}) == s.owners[owner];
      assert Only(s.owners[owner], {}) == map[];
      EmptyKeeps(s.owners[owner := map[]], s.live - Handles(s.owners[owner]), s.wishes, s.owners - {owner});
    }
  }

  // ---- leaving the lobby ----

  lemma Fewer(owners: map<Owner, Registrations>, o: Owner)
    requires o in owners
    ensures |owners - {o}| < |owners|
  {
    assert (owners - {o}).Keys == owners.Keys - {o};
  }

  /** Releases the first owner until none is left. */
  function ReleaseEach(s: State): State
    decreases |s.owners|
  {
    if s.owners == map[] then s
    else
      var o := Smallest(s.owners.Keys);
      Fewer(s.owners, o);
      ReleaseEach(Release(s, o))
  }

  function SetLobby(s: State, active: bool): State {
    if active then s.(lobby := true) else ReleaseEach(s.(lobby := false))
  }

  /** Then nothing is left, in the service either. */
  lemma {:induction false} ReleaseEachEmpties(s: State)
    requires Balanced(s.owners, s.live, s.wishes)
    ensures ReleaseEach(s) == s.(owners := map[], live := map[])
    decreases |s.owners|
  {
    hide Balanced;
    if s.owners == map[] {
      NoneLive(s.live, s.wishes);
    } else {
      var o := Smallest(s.owners.Keys);
      Fewer(s.owners, o);
      ReleaseKeeps(s, o);
      ReleaseEachEmpties(Release(s, o));
    }
  }

  lemma NoneLive(live: map<Handle, Texture>, ws: seq<Wish>)
    requires Balanced(map[], live, ws)
    ensures live == map[]
  {
    assert live.Keys == {};
  }

  lemma LeaveKeeps(s: State)
    requires Inv(s)
    ensures Inv(SetLobby(s, false))
  {
    hide Balanced;
    ReleaseEachEmpties(s.(lobby := false));
    NothingBalances(s.wishes);
  }

  lemma NothingBalances(ws: seq<Wish>)
    ensures Balanced(map[], map[], ws)
  {}

  // ---- runs ----

  datatype Step = Applying(owner: Owner, outfit: Color, zora: Color, models: seq<Model>, replies: Replies)
                | Releasing(owner: Owner) | Lobby(active: bool)

  function Do(s: State, step: Step): State {
    match step
    case Applying(owner, outfit, zora, models, replies) => Apply(s, owner, outfit, zora, models, replies)
    case Releasing(owner) => Release(s, owner)
    case Lobby(active) => SetLobby(s, active)
  }

  function Run(steps: seq<Step>): State {
    if steps == [] then NOTHING else Do(Run(steps[..|steps| - 1]), steps[|steps| - 1])
  }

  lemma StepKeeps(s: State, step: Step)
    requires Inv(s)
    ensures Inv(Do(s, step))
  {
    hide Apply, Balanced, SetLobby;
    match step
    case Applying(owner, outfit, zora, models, replies) => ApplyKeeps(s, owner, outfit, zora, models, replies);
    case Releasing(owner) => ReleaseKeeps(s, owner);
    case Lobby(active) => if active { JoinKeeps(s); } else { LeaveKeeps(s); }
  }

  lemma JoinKeeps(s: State)
    requires Inv(s)
    ensures Inv(SetLobby(s, true))
  {
    hide Balanced;
  }

  /** In every run, failed registrations and shared pointers included, the handles live in the service are exactly
      those the owners hold, each held once. */
  lemma {:induction false} HandlesBalance(steps: seq<Step>)
    ensures Inv(Run(steps))
  {
    hide Inv, Do;
    if steps == [] {
      NothingInv();
    } else {
      HandlesBalance(steps[..|steps| - 1]);
      StepKeeps(Run(steps[..|steps| - 1]), steps[|steps| - 1]);
    }
  }

  lemma NothingInv()
    ensures Inv(NOTHING)
  {}

  // ---- what apply achieves ----

  /** The colour of the last image at an address that asks for one and can be replaced. */
  function Wanted(images: seq<Image>, outfit: Color, zora: Color, p: Pointer): Option<Color> {
    if images == [] then None
    else
      var last := images[|images| - 1];
      var asked := Asked(last, outfit, zora);
      if asked.Some? && last.pointer == p && Bytes(last) != 0 then asked
      else Wanted(images[..|images| - 1], outfit, zora, p)
  }

  /** Some image at that address asks for a colour, whether or not it can be replaced. */
  predicate Mentioned(images: seq<Image>, outfit: Color, zora: Color, p: Pointer) {
    images != [] &&
    ((Asked(images[|images| - 1], outfit, zora).Some? && images[|images| - 1].pointer == p) ||
     Mentioned(images[..|images| - 1], outfit, zora, p))
  }

  lemma {:induction false} VisitAllSees(w: Work, images: seq<Image>, outfit: Color, zora: Color, replies: Replies,
                                        p: Pointer)
    ensures p in VisitAll(w, images, outfit, zora, replies).seen <==> p in w.seen || Mentioned(images, outfit, zora, p)
  {
    hide Asked, TextureFor, Bytes;
    if images != [] { VisitAllSees(w, images[..|images| - 1], outfit, zora, replies, p); }
  }

  lemma FailedGrows(w: Work, image: Image, outfit: Color, zora: Color, replies: Replies)
    ensures w.failed <= Visit(w, image, outfit, zora, replies).failed
  {}

  lemma {:induction false} FailedGrowsAll(w: Work, images: seq<Image>, outfit: Color, zora: Color, replies: Replies)
    ensures w.failed <= VisitAll(w, images, outfit, zora, replies).failed
  {
    hide Visit;
    if images != [] {
      var n := |images| - 1;
      FailedGrowsAll(w, images[..n], outfit, zora, replies);
      FailedGrows(VisitAll(w, images[..n], outfit, zora, replies), images[n], outfit, zora, replies);
    }
  }

  /** Whether the registration of `p` is as wanted, or as it was when nothing is. */
  predicate AsWanted(before: Registrations, after: Registrations, wanted: Option<Color>, p: Pointer) {
    if wanted.Some? then p in after && after[p].color == wanted.value
    else (p in after <==> p in before) && (p in after ==> after[p] == before[p])
  }

  lemma {:induction false} VisitAllWants(w: Work, images: seq<Image>, outfit: Color, zora: Color, replies: Replies,
                                         p: Pointer)
    requires VisitAll(w, images, outfit, zora, replies).failed == w.failed
    ensures AsWanted(w.regs, VisitAll(w, images, outfit, zora, replies).regs, Wanted(images, outfit, zora, p), p)
  {
    hide Asked, TextureFor, Bytes;
    if images != [] {
      var n := |images| - 1;
      FailedGrowsAll(w, images[..n], outfit, zora, replies);
      FailedGrows(VisitAll(w, images[..n], outfit, zora, replies), images[n], outfit, zora, replies);
      VisitAllWants(w, images[..n], outfit, zora, replies, p);
    }
  }

  /** After an apply an owner holds only pointers that its models mention. Each has the colour that the last usable
      image with it asks for, if no registration failed; and other owners keep theirs. */
  lemma ApplyOwns(s: State, owner: Owner, outfit: Color, zora: Color, models: seq<Model>, replies: Replies, p: Pointer)
    requires s.lobby
    ensures var s' := Apply(s, owner, outfit, zora, models, replies);
            var mentioned := Mentioned(Images(models), outfit, zora, p);
            && (p in Of(s', owner) ==> mentioned)
            && (mentioned && Visited(s, owner, outfit, zora, models, replies).failed == 0 ==>
                  AsWanted(Of(s, owner), Of(s', owner), Wanted(Images(models), outfit, zora, p), p))
            && forall o :: o != owner ==> Of(s', o) == Of(s, o)
  {
    hide Images, VisitAll, Mentioned, Wanted;
    VisitAllSees(Start(s, owner), Images(models), outfit, zora, replies, p);
    if Visited(s, owner, outfit, zora, models, replies).failed == 0 {
      VisitAllWants(Start(s, owner), Images(models), outfit, zora, replies, p);
    }
  }

  // ---- what is shown ----

  /** The wishes of a run are the images of its applies. */
  lemma {:induction false} WishIsOfStep(steps: seq<Step>, i: nat) returns (k: nat)
    requires i < |Run(steps).wishes|
    ensures var w := Run(steps).wishes[i];
            && k < |steps| && steps[k].Applying? && w.image in Images(steps[k].models)
            && w == Wish(steps[k].owner, w.image, steps[k].outfit, steps[k].zora)
  {
    hide Visited, Images;
    var n := |steps| - 1;
    var before := Run(steps[..n]);
    StepWishes(before, steps[n]);
    if i < |before.wishes| {
      assert Run(steps).wishes[i] == before.wishes[i];
      k := WishIsOfStep(steps[..n], i);
    } else {
      k := n;
    }
  }

  lemma StepWishes(s: State, step: Step)
    ensures Do(s, step).wishes ==
            s.wishes +
            if step.Applying? && s.lobby then WishesOf(step.owner, step.outfit, step.zora, Images(step.models)) else []
  {
    hide Visited, Images;
    if step.Lobby? && !step.active { ReleaseEachWishes(s.(lobby := false)); }
  }

  lemma {:induction false} ReleaseEachWishes(s: State)
    ensures ReleaseEach(s).wishes == s.wishes
    decreases |s.owners|
  {
    if s.owners != map[] {
      var o := Smallest(s.owners.Keys);
      Fewer(s.owners, o);
      ReleaseEachWishes(Release(s, o));
    }
  }

  /** The texture shows, at every level and pixel, the tint of the image's own pixel. */
  ghost predicate ShowsTint(t: Texture, image: Image, color: Color) {
    && t.width == image.width && t.height == image.height && t.mips == Mips(image)
    && Bytes(image) != 0 && |t.data| == TextureLayout.TextureSize(TextureLayout.RGBA8, t.width, t.height, t.mips)
    && forall m: nat, x: nat, y: nat :: TintAt(t, image, color, m, x, y)
  }

  /** At one level and pixel, if there is one. */
  ghost predicate TintAt(t: Texture, image: Image, color: Color, m: nat, x: nat, y: nat) {
    var source := Memory(image);
    var w := TextureLayout.MipSize(t.width, m);
    var h := TextureLayout.MipSize(t.height, m);
    var inBase := TextureLayout.TextureBytes(image.format, t.width, t.height, m);
    var outBase := TextureLayout.TextureBytes(TextureLayout.RGBA8, t.width, t.height, m);
    m < t.mips && x < w && y < h ==>
      && TextureLayout.Supported(image.format)
      && inBase + TextureLayout.LevelBytes(image.format, w, h) <= |source|
      && outBase + TextureLayout.LevelBytes(TextureLayout.RGBA8, w, h) <= |t.data|
      && PlayerColor.Decode(t.data, TextureLayout.RGBA8, outBase, w, h, x, y) ==
         PlayerColor.Tint(PlayerColor.Decode(source, image.format, inBase, w, h, x, y), color)
  }

  lemma TextureShowsTint(image: Image, color: Color)
    requires Bytes(image) != 0 && color != DEFAULT_COLOR
    ensures ShowsTint(TextureFor(image, color), image, color)
  {
    hide PlayerColor.Recolored, PlayerColor.Decode, PlayerColor.Tint, TextureLayout.MipSize, TextureLayout.TextureBytes,
         TextureLayout.LevelBytes;
    var t := TextureFor(image, color);
    var source := Memory(image);
    forall m: nat, x: nat, y: nat ensures TintAt(t, image, color, m, x, y) {
      if m < t.mips && x < TextureLayout.MipSize(t.width, m) && y < TextureLayout.MipSize(t.height, m) {
        PlayerColor.RecolorIsTint(source, image.format, t.width, t.height, t.mips, color, m, x, y);
      }
    }
    assert TextureLayout.MipSize(t.width, 0) > 0 && TextureLayout.MipSize(t.height, 0) > 0;
    PlayerColor.RecolorIsTint(source, image.format, t.width, t.height, t.mips, color, 0, 0, 0);
  }

  /** In every run, whatever an owner holds for a pointer is live and was made from the memory of an image at that
      pointer which some apply was given for the owner and which asked for its colour; in a colour of its own it
      shows, at every level and pixel, the tint of that image's pixel. */
  lemma HeldShowsTint(steps: seq<Step>, o: Owner, p: Pointer) returns (k: nat, image: Image)
    requires p in Of(Run(steps), o)
    ensures k < |steps| && steps[k].Applying? && steps[k].owner == o && image in Images(steps[k].models)
    ensures var r := Of(Run(steps), o)[p];
            && image.pointer == p && Asked(image, steps[k].outfit, steps[k].zora) == Some(r.color)
            && r.handle in Run(steps).live && Bytes(image) != 0
            && Run(steps).live[r.handle] == TextureFor(image, r.color)
            && (r.color != DEFAULT_COLOR ==> ShowsTint(Run(steps).live[r.handle], image, r.color))
  {
    hide Run, ShowsTint, TextureFor, Bytes, Asked, Images;
    HandlesBalance(steps);
    var s := Run(steps);
    var r := Of(s, o)[p];
    assert Holds(s.owners, o, p, r);
    assert Wished(s.wishes, o, p, r.color, s.live[r.handle]);
    var i :| 0 <= i < |s.wishes| && MadeFor(s.wishes[i], o, p, r.color, s.live[r.handle]);
    k := WishIsOfStep(steps, i);
    image := s.wishes[i].image;
    if r.color != DEFAULT_COLOR { TextureShowsTint(image, r.color); }
  }
}
