/** Which textures are replaced, by what, and when nothing has to be done. */
module AppearanceImages {
  import opened Common
  import opened AppearanceModel
  import TextureLayout

  // ---- which images, and in which colour ----

  /** The green clothes are textures of the names with `al`, the zora armour those with `zl`; no other texture of
      either kind is replaced. */
  lemma GarmentNames(name: string)
    ensures GarmentOf(name).Tunic? <==> name == "al_cap" || name == "al_upbody" || name == "al_lowbody"
    ensures GarmentOf(name).Zora? <==>
            || name == "zl_cap" || name == "zl_helmet" || name == "zl_armor" || name == "zl_armL"
            || name == "zl_body" || name == "zl_boots"
    ensures GarmentOf(name).Tunic? ==> |name| > 3 && name[..3] == "al_"
    ensures GarmentOf(name).Zora? ==> |name| > 3 && name[..3] == "zl_"
  {}

  /** A texture is replaced if it has a name of a garment, a header and pixels; and in the zora colour if and only if
      its name is one of the zora armour's. */
  lemma AskedExactly(image: Image, outfit: Color, zora: Color)
    ensures Asked(image, outfit, zora).Some? <==>
            image.name.Some? && !GarmentOf(image.name.value).NoGarment? && image.hasHeader && image.pointer != 0
    ensures Asked(image, outfit, zora).Some? ==>
              && image.name.Some? && |image.name.value| > 3
              && Asked(image, outfit, zora).value == if image.name.value[..3] == "zl_" then zora else outfit
  {
    if image.name.Some? { GarmentNames(image.name.value); }
  }

  /** A mipmapped image keeps all its levels, any other has one. */
  lemma LevelsKept(image: Image)
    ensures image.mipmapped && image.mipCount >= 1 ==> Mips(image) == image.mipCount
    ensures !image.mipmapped || image.mipCount == 0 ==> Mips(image) == 1
  {}

  /** The default colour leaves every byte, the size and the format as they are. */
  lemma DefaultIsNative(image: Image)
    requires Bytes(image) != 0
    ensures var t := TextureFor(image, 0x1000000);
            && t.pointer == image.pointer && t.format == image.format
            && t.width == image.width && t.height == image.height && t.mips == Mips(image)
            && |t.data| == TextureLayout.TextureSize(image.format, image.width, image.height, Mips(image))
            && forall i :: 0 <= i < |t.data| ==> t.data[i] == image.memory(i)
  {}

  /** In every run, a texture held in the default colour is, byte for byte, the memory of an image of its owner at that
      pointer; one in another colour is an RGBA8 texture of the same size. */
  lemma HeldDefaultIsNative(steps: seq<Step>, o: Owner, p: Pointer) returns (k: nat, image: Image)
    requires p in Of(Run(steps), o)
    ensures k < |steps| && steps[k].Applying? && steps[k].owner == o && image in Images(steps[k].models)
    ensures var r := Of(Run(steps), o)[p];
            && r.handle in Run(steps).live
            && var t := Run(steps).live[r.handle];
               && t.pointer == p && t.width == image.width && t.height == image.height && t.mips == Mips(image)
               && (if r.color == 0x1000000 then
                     && t.format == image.format && |t.data| == Bytes(image)
                     && forall i :: 0 <= i < |t.data| ==> t.data[i] == image.memory(i)
                   else t.format == TextureLayout.RGBA8)
  {
    hide Run, Asked, Images, Memory, ShowsTint;
    k, image := HeldShowsTint(steps, o, p);
    DefaultIsNative(image);
  }

  /** The service may fail; when it gives a handle that is not live, the registration has that handle. */
  lemma GrantedExactly(live: map<Handle, Texture>, reply: Option<Handle>, h: Handle)
    ensures Granted(live, reply) == Some(h) <==> reply == Some(h) && h !in live
  {}

  /** An apply looks at all textures of all loaded models, and at nothing else. */
  lemma {:induction false} ImagesExactly(models: seq<Model>, image: Image)
    ensures image in Images(models) <==>
            exists m :: 0 <= m < |models| && models[m].Some? && image in models[m].value
  {
    if models != [] {
      var n := |models| - 1;
      ImagesExactly(models[..n], image);
      assert forall m :: 0 <= m < n ==> models[..n][m] == models[m];
    }
  }

  // ---- a service that does not fail ----

  /** The service has a handle for every registration: a new one each time. */
  ghost predicate Generous(live: map<Handle, Texture>, replies: Replies) {
    && (forall k: nat :: replies(k).Some? && replies(k).value !in live)
    && (forall j: nat, k: nat :: replies(j) == replies(k) ==> j == k)
  }

  /** The handles live now were live at the start or were given out since. */
  ghost predicate GivenOut(before: map<Handle, Texture>, live: map<Handle, Texture>, replies: Replies, tried: nat) {
    forall h :: h in live ==> h in before || exists k: nat :: k < tried && replies(k) == Some(h)
  }

  lemma VisitSucceeds(before: map<Handle, Texture>, w: Work, image: Image, outfit: Color, zora: Color, replies: Replies)
    requires Generous(before, replies) && GivenOut(before, w.live, replies, w.tried)
    ensures var w' := Visit(w, image, outfit, zora, replies);
            w'.failed == w.failed && GivenOut(before, w'.live, replies, w'.tried)
  {
    hide Asked, Bytes, TextureFor;
    assert replies(w.tried).value !in w.live;
    var w' := Visit(w, image, outfit, zora, replies);
    forall h | h in w'.live ensures h in before || exists k: nat :: k < w'.tried && replies(k) == Some(h) {
      if h in w.live {
        if h !in before {
          var k: nat :| k < w.tried && replies(k) == Some(h);
          assert k < w'.tried;
        }
      } else {
        assert replies(w.tried) == Some(h) && w.tried < w'.tried;
      }
    }
  }

  lemma {:induction false} VisitAllSucceeds(before: map<Handle, Texture>, w: Work, images: seq<Image>, outfit: Color,
                                            zora: Color, replies: Replies)
    requires Generous(before, replies) && GivenOut(before, w.live, replies, w.tried)
    ensures var w' := VisitAll(w, images, outfit, zora, replies);
            w'.failed == w.failed && GivenOut(before, w'.live, replies, w'.tried)
  {
    hide Generous, GivenOut, Visit;
    if images != [] {
      var n := |images| - 1;
      VisitAllSucceeds(before, w, images[..n], outfit, zora, replies);
      VisitSucceeds(before, VisitAll(w, images[..n], outfit, zora, replies), images[n], outfit, zora, replies);
    }
  }

  /** With a service that does not fail, an apply leaves every pointer that its models want in a colour in that colour,
      whatever was there before. */
  lemma WantedIsShown(s: State, owner: Owner, outfit: Color, zora: Color, models: seq<Model>, replies: Replies,
                      p: Pointer)
    requires s.lobby && Generous(s.live, replies)
    requires Wanted(Images(models), outfit, zora, p).Some?
    ensures var s' := Apply(s, owner, outfit, zora, models, replies);
            p in Of(s', owner) && Of(s', owner)[p].color == Wanted(Images(models), outfit, zora, p).value
  {
    hide Images, VisitAll, Mentioned, Wanted, Generous, Apply, Of;
    VisitAllSucceeds(s.live, Start(s, owner), Images(models), outfit, zora, replies) by {
      assert GivenOut(s.live, s.live, replies, 0);
    }
    ApplyOwns(s, owner, outfit, zora, models, replies, p);
    WantedIsMentioned(Images(models), outfit, zora, p);
  }

  lemma {:induction false} WantedIsMentioned(images: seq<Image>, outfit: Color, zora: Color, p: Pointer)
    ensures Wanted(images, outfit, zora, p).Some? ==> Mentioned(images, outfit, zora, p)
  {
    hide Asked, Bytes;
    if images != [] { WantedIsMentioned(images[..|images| - 1], outfit, zora, p); }
  }

  // ---- what the other operations leave ----

  /** A release concerns one owner; entering a lobby changes nothing else, and leaving it is noticed. */
  lemma ReleasesOne(s: State, owner: Owner, o: Owner)
    ensures Of(Release(s, owner), o) == if o == owner then map[] else Of(s, o)
    ensures owner !in Release(s, owner).owners && Release(s, owner).lobby == s.lobby
    ensures SetLobby(s, true) == s.(lobby := true) && !SetLobby(s, false).lobby
  {
    LeavesLobby(s.(lobby := false));
  }

  lemma {:induction false} LeavesLobby(s: State)
    ensures ReleaseEach(s).lobby == s.lobby
    decreases |s.owners|
  {
    if s.owners != map[] {
      var o := Smallest(s.owners.Keys);
      Fewer(s.owners, o);
      LeavesLobby(Release(s, o));
    }
  }

  // ---- nothing to do ----

  /** The image asks for nothing, cannot be replaced, or is as it asks already. */
  predicate Served(regs: Registrations, image: Image, outfit: Color, zora: Color) {
    var asked := Asked(image, outfit, zora);
    asked.None? || Bytes(image) == 0 || (image.pointer in regs && regs[image.pointer].color == asked.value)
  }

  lemma {:induction false} VisitServed(w: Work, images: seq<Image>, outfit: Color, zora: Color, replies: Replies)
    requires forall i :: 0 <= i < |images| ==> Served(w.regs, images[i], outfit, zora)
    ensures var w' := VisitAll(w, images, outfit, zora, replies);
            w' == w.(seen := w'.seen)
  {
    hide Asked, TextureFor, Bytes;
    if images != [] { VisitServed(w, images[..|images| - 1], outfit, zora, replies); }
  }

  /** An apply that finds every texture served and every registration still in use asks the service for nothing and
      changes nothing. */
  lemma RedrawIsFree(s: State, owner: Owner, outfit: Color, zora: Color, models: seq<Model>, replies: Replies)
    requires s.lobby && owner in s.owners
    requires forall i :: 0 <= i < |Images(models)| ==> Served(s.owners[owner], Images(models)[i], outfit, zora)
    requires forall p :: p in s.owners[owner] ==> Mentioned(Images(models), outfit, zora, p)
    ensures Visited(s, owner, outfit, zora, models, replies).tried == 0
    ensures var s' := Apply(s, owner, outfit, zora, models, replies);
            s' == s.(wishes := s'.wishes)
  {
    hide Images, VisitAll, Mentioned, Served;
    var w := Visited(s, owner, outfit, zora, models, replies);
    VisitServed(Start(s, owner), Images(models), outfit, zora, replies);
    forall p | p in w.regs ensures p in w.seen {
      VisitAllSees(Start(s, owner), Images(models), outfit, zora, replies, p);
    }
    assert Only(w.regs, w.seen) == w.regs;
    assert Without(w.regs, w.seen) == map[];
    assert s.owners[owner := s.owners[owner]] == s.owners;
    assert w.live - {} == s.live;
  }
}
