/** The registration cache and the service it registers with. */
module TextureReplacements {
  import opened Common
  import opened AppearanceModel
  import TextureLayout
  import PlayerColor

  class Cache {
    var owners: map<Owner, Registrations>
    var lobbyActive: bool
    var live: map<Handle, Texture>
    ghost var wishes: seq<Wish>

    ghost function View(): State
      reads this
    {
      State(owners, live, lobbyActive, wishes)
    }

    ghost predicate Valid()
      reads this
    {
      Balanced(owners, live, wishes)
    }

    constructor ()
      ensures Valid() && View() == NOTHING
    {
      owners, lobbyActive, live, wishes := map[], false, map[], [];
    }

    // ---- the service ----

    method Register(texture: Texture, reply: Option<Handle>) returns (handle: Option<Handle>)
      modifies this`live
      ensures handle == Granted(old(live), reply)
      ensures live == if handle.Some? then old(live)[handle.value := texture] else old(live)
    {
      handle := if reply.Some? && reply.value in live then None else reply;
      if handle.Some? { live := live[handle.value := texture]; }
    }

    /** Only a live handle may be given back. */
    method Unregister(handle: Handle)
      requires handle in live
      modifies this`live
      ensures live == old(live) - {handle}
    {
      live := live - {handle};
    }

    // ---- the cache ----

    method SetLobbyActive(active: bool)
      requires Valid()
      modifies this
      ensures Valid() && View() == SetLobby(old(View()), active)
      ensures !active ==> owners == map[] && live == map[]
    {
      hide Balanced;
      lobbyActive := active;
      if !active {
        ghost var start := View();
        while owners != map[]
          invariant Valid() && lobbyActive == active
          invariant ReleaseEach(View()) == ReleaseEach(start)
          decreases |owners|
        {
          var o := Smallest(owners.Keys);
          Fewer(owners, o);
          ReleaseOwner(o);
        }
        NoneLive(live, wishes);
      }
    }

    method ReleaseOwner(owner: Owner)
      requires Valid()
      modifies this`owners, this`live
      ensures Valid() && View() == Release(old(View()), owner)
    {
      ReleaseKeeps(View(), owner);
      if owner !in owners { return; }
      GiveBack(owner, owners[owner]);
      owners := owners - {owner};
    }

    /** Unregisters each of an owner's registrations `regs`. */
    method GiveBack(owner: Owner, regs: Registrations)
      requires Valid() && owner in owners && forall p :: p in regs ==> p in owners[owner] && owners[owner][p] == regs[p]
      modifies this`live
      ensures live == old(live) - Handles(regs)
    {
      hide Balanced, Handles, Except;
      var todo := regs.Keys;
      ghost var was := live;
      NothingDone(regs, was);
      while todo != {}
        invariant todo <= regs.Keys
        invariant live == was - Handles(Except(regs, todo))
      {
        var p :| p in todo;
        StillLive(owners, was, wishes, owner, regs, todo, p);
        Unregister(regs[p].handle);
        assert todo == (todo - {p}) + {p};
        todo := todo - {p};
        OneMore(regs, todo, p, was);
      }
      AllDone(regs);
    }

    /** The registrations that are done when `todo` is not. */
    ghost function Except(regs: Registrations, todo: set<Pointer>): Registrations {
      map q | q in regs && q !in todo :: regs[q]
    }

    lemma NothingDone(regs: Registrations, was: map<Handle, Texture>)
      ensures was - Handles(Except(regs, regs.Keys)) == was
    {
      assert Except(regs, regs.Keys) == map[];
    }

    lemma AllDone(regs: Registrations)
      ensures Except(regs, {}) == regs
    {}

    lemma OneMore(regs: Registrations, todo: set<Pointer>, p: Pointer, was: map<Handle, Texture>)
      requires p in regs && p !in todo
      ensures was - Handles(Except(regs, todo)) == was - Handles(Except(regs, todo + {p})) - {regs[p].handle}
    {
      var less, more := Except(regs, todo + {p}), Except(regs, todo);
      assert p in more;
      assert Handles(more) == Handles(less) + {regs[p].handle} by {
        forall h | h in Handles(more) ensures h in Handles(less) + {regs[p].handle} {
          var q :| q in more && more[q].handle == h;
          if q != p { assert q in less; }
        }
        forall h | h in Handles(less) ensures h in Handles(more) {
          var q :| q in less && less[q].handle == h;
          assert q in more;
        }
      }
    }

    lemma StillLive(owners: map<Owner, Registrations>, live: map<Handle, Texture>, ws: seq<Wish>, o: Owner,
                    regs: Registrations, todo: set<Pointer>, p: Pointer)
      requires Balanced(owners, live, ws) && o in owners && p in todo && p in regs
      requires forall q :: q in regs ==> q in owners[o] && owners[o][q] == regs[q]
      ensures regs[p].handle in live && regs[p].handle !in Handles(Except(regs, todo))
    {
      HeldIsLive(owners, live, ws, o, p);
      var done := Except(regs, todo);
      if regs[p].handle in Handles(done) {
        var q :| q in done && done[q].handle == regs[p].handle;
        assert Holds(owners, o, q, regs[q]) && Holds(owners, o, p, regs[p]);
        assert false;
      }
    }

    method ApplyTo(owner: Owner, outfit: Color, zora: Color, models: seq<Model>, replies: Replies)
      requires Valid()
      modifies this`owners, this`live, this`wishes
      ensures Valid() && View() == Apply(old(View()), owner, outfit, zora, models, replies)
    {
      hide Balanced, Visit, VisitAll, Images, WishesOf;
      if !lobbyActive { return; }
      ghost var was := View();
      ghost var w := Start(was, owner);
      MoreWishes(owners, live, wishes, WishesOf(owner, outfit, zora, Images(models)));
      WishesAreThere(wishes, owner, outfit, zora, Images(models));
      wishes := wishes + WishesOf(owner, outfit, zora, Images(models));
      ghost var ws := wishes;
      if owner !in owners {
        EmptyKeeps(owners, live, wishes, owners[owner := map[]]);
        owners := owners[owner := map[]];
      }
      assert owners == was.owners[owner := w.regs];
      var seen: set<Pointer> := {};
      var tried: nat := 0;
      var m := 0;
      ImagesNone(w, outfit, zora, replies);
      assert models[..0] == [];
      while m < |models|
        invariant m <= |models|
        invariant w == VisitAll(Start(was, owner), Images(models[..m]), outfit, zora, replies)
        invariant Valid() && owners == was.owners[owner := w.regs]
        invariant live == w.live && seen == w.seen && tried == w.tried && wishes == ws
      {
        ImagesStep(models, m);
        if models[m].Some? {
          var images := models[m].value;
          var i := 0;
          ghost var before := Images(models[..m]);
          assert before + images[..0] == before;
          while i < |images|
            invariant i <= |images|
            invariant w == VisitAll(Start(was, owner), before + images[..i], outfit, zora, replies)
            invariant Valid() && owners == was.owners[owner := w.regs]
            invariant live == w.live && seen == w.seen && tried == w.tried && wishes == ws
          {
            InImages(models, m, i);
            VisitStep(Start(was, owner), before, images, i, outfit, zora, replies);
            seen, tried := ApplyImage(owner, outfit, zora, images[i], replies, seen, tried, was.owners, w);
            w := Visit(w, images[i], outfit, zora, replies);
            i := i + 1;
          }
          assert images[..i] == images;
        }
        m := m + 1;
      }
      assert models[..m] == models;
      DropUnseen(owner, seen);
      assert was.owners[owner := w.regs][owner := Only(w.regs, seen)] == was.owners[owner := Only(w.regs, seen)];
    }

    lemma ImagesNone(w: Work, outfit: Color, zora: Color, replies: Replies)
      ensures VisitAll(w, Images([]), outfit, zora, replies) == w
    {}

    lemma ImagesStep(models: seq<Model>, m: nat)
      requires m < |models|
      ensures Images(models[..m + 1]) == Images(models[..m]) + if models[m].Some? then models[m].value else []
      ensures models[m].None? ==> Images(models[..m + 1]) == Images(models[..m])
    {
      assert models[..m + 1][..m] == models[..m];
    }

    lemma {:induction false} InImages(models: seq<Model>, m: nat, i: nat)
      requires m < |models| && models[m].Some? && i < |models[m].value|
      ensures models[m].value[i] in Images(models)
    {
      var n := |models| - 1;
      if m < n { InImages(models[..n], m, i); }
    }

    lemma VisitStep(w: Work, before: seq<Image>, images: seq<Image>, i: nat, outfit: Color, zora: Color,
                    replies: Replies)
      requires i < |images|
      ensures VisitAll(w, before + images[..i + 1], outfit, zora, replies) ==
              Visit(VisitAll(w, before + images[..i], outfit, zora, replies), images[i], outfit, zora, replies)
    {
      hide Visit;
      var all := before + images[..i + 1];
      assert all[..|all| - 1] == before + images[..i];
    }

    lemma AskedOf(image: Image, outfit: Color, zora: Color)
      ensures var usable := image.hasHeader && image.pointer != NULL;
              if usable && image.name.Some? && !GarmentOf(image.name.value).NoGarment? then
                Asked(image, outfit, zora) == Some(if GarmentOf(image.name.value).Zora? then zora else outfit)
              else
                Asked(image, outfit, zora).None?
    {
      hide GarmentOf;
    }

    /** One image. The pixels are made from as many bytes as the texture takes. */
    method ApplyImage(owner: Owner, outfit: Color, zora: Color, image: Image, replies: Replies,
                      seenBefore: set<Pointer>,
                      triedBefore: nat, ghost others: map<Owner, Registrations>, ghost w: Work)
      returns (seen: set<Pointer>, tried: nat)
      requires Valid() && owners == others[owner := w.regs]
      requires live == w.live && seenBefore == w.seen && triedBefore == w.tried
      requires Wish(owner, image, outfit, zora) in wishes
      modifies this`owners, this`live
      ensures var w' := Visit(w, image, outfit, zora, replies);
              && Valid() && owners == others[owner := w'.regs]
              && live == w'.live && seen == w'.seen && tried == w'.tried
    {
      hide Balanced, TextureFor, Bytes, With, Asked, GarmentOf;
      AskedOf(image, outfit, zora);
      VisitKeeps(others, owner, w, wishes, image, outfit, zora, replies);
      seen, tried := seenBefore, triedBefore;
      if image.name.None? { return; }
      var part := GarmentOf(image.name.value);
      if part.NoGarment? { return; }
      var color := if part.Zora? then zora else outfit;
      var p := image.pointer;
      if !image.hasHeader || p == NULL { return; }
      seen := seen + {p};
      var registrations := owners[owner];
      if p in registrations && registrations[p].color == color { return; }
      var texture := MakeTexture(image, color);
      if texture.None? { return; }
      var handle := Register(texture.value, replies(tried));
      tried := tried + 1;
      if handle.None? { return; }
      if p in registrations {
        HeldIsLive(others[owner := w.regs], w.live, wishes, owner, p);
        Unregister(registrations[p].handle);
      }
      Overwrite(others, owner, w.regs, With(registrations, p, Replacement(handle.value, color)));
      owners := owners[owner := With(registrations, p, Replacement(handle.value, color))];
    }

    lemma Overwrite(m: map<Owner, Registrations>, o: Owner, a: Registrations, b: Registrations)
      ensures m[o := a][o := b] == m[o := b]
    {}

    /** The replacement of an image, if its format and size are supported: then there always is one. */
    method MakeTexture(image: Image, color: Color) returns (t: Option<Texture>)
      ensures t == if Bytes(image) == 0 then None else Some(TextureFor(image, color))
    {
      hide PlayerColor.Recolored;
      var mips := if image.mipmapped then (if image.mipCount > 1 then image.mipCount else 1) else 1;
      var bytes := TextureLayout.ComputeTextureSize(image.format, image.width, image.height, mips);
      if bytes == 0 { return None; }
      var source := seq(bytes, i requires 0 <= i => image.memory(i));
      if color == DEFAULT_COLOR {
        return Some(Texture(image.pointer, source, image.width, image.height, mips, image.format));
      }
      var pixels := PlayerColor.Recolor(source, image.format, image.width, image.height, mips, color);
      if pixels == [] {
        PlayerColor.TextureNotEmpty(TextureLayout.RGBA8, image.width, image.height, mips);
        return None;
      }
      t := Some(Texture(image.pointer, pixels, image.width, image.height, mips, TextureLayout.RGBA8));
    }

    /** Gives back what was registered for pointers that were not seen. */
    method DropUnseen(owner: Owner, seen: set<Pointer>)
      requires Valid() && owner in owners
      modifies this`owners, this`live
      ensures Valid()
      ensures owners == old(owners)[owner := Only(old(owners)[owner], seen)]
      ensures live == old(live) - Handles(Without(old(owners)[owner], seen))
    {
      DropKeeps(owners, live, wishes, owner, seen);
      GiveBack(owner, Without(owners[owner], seen));
      owners := owners[owner := Only(owners[owner], seen)];
    }
  }
}
