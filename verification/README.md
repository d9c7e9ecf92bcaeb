# Dusklight Online: verified model

This project models eight stateful parts of Dusklight Online, a mod that connects players of one game, and proves
what they promise. `dafny verify dfyconfig.toml` checks all of it.

Each part has the same layout. A file of specification functions on a value (`State`, `Node`, `Channel`, ...) says
what one operation does, branch by branch as the program does it. Where the program is an object that changes in
place, a class with the same fields and loops is proved to do exactly what those functions say, history included.
Lemmas about the functions then state the property the part exists for, over every input and every run. A run is a
sequence of arbitrary operations; clocks, random bytes, held buttons, save probes, consumer answers, texture handles
and everything else that comes from outside are parameters of the operations.

| files | part |
|---|---|
| `scheduler*.dfy`, `datagram_kind.dfy` | datagram scheduler: token buckets, two-class queues, rotation, ageing on a 32-bit clock |
| `speedrun*.dfy` | speedrun start protocol between a host and its guests |
| `texture_layout.dfy`, `player_color.dfy`, `pixel_formats.dfy` | recolouring of tiled GX textures over all mip levels |
| `max_life*.dfy` | merge of max-life pickups between peers |
| `cloud_cipher.dfy`, `cloud_binding.dfy`, `hex_text.dfy` | encrypted record channel of cloud rooms and its text form |
| `protocol_router.dfy`, `protocol_router_class.dfy`, `router_runs.dfy`, `router_gates.dfy` | message router: gates, bounded deferral queue, flush |
| `chat_emoji.dfy`, `chat_utf8.dfy`, `base64.dfy` | text codecs |
| `appearance.dfy`, `appearance_images.dfy`, `appearance_class.dfy` | ownership of texture registrations |
| `common.dfy`, `arithmetic.dfy` | shared types and arithmetic |

## What is proved

**Scheduler.** `Update` ends with nobody able to pay, after at most 66 sends, so the bound of 4096 passes never binds.
Over any window of updates the bytes handed over, plus 64 for each datagram, stay within a burst of 4224 bytes plus
the rate times the elapsed time, in all and for each peer that stays registered. If one peer is served twice in an
update, any other was served in between or could pay from neither class from when it was passed over until the end.
Every account gets exactly its rate up to the burst, and a packet waits only for credit: a lone peer's head goes out
as soon as the elapsed time covers its cost. Each accepted packet is sent, dropped or still queued, once; sent order
is a subsequence of acceptance order; reliable packets never make room. The scheduler on a wrapping clock is proved
equal, step by step, to one on a true clock, if it is used in time. Packets queued before the first update are all
stamped 0 and fall outside that: at the first update either all of them expire, or none does, depending on its reading
alone.

**Speedrun start.** In every run with one owner and a network that may lose, delay, reorder and repeat messages but
not forge them, whoever starts a request does so only after each of its participants and the host had a clear save
probe and held Down for that request, at every frame of at least a second, and after the host tried to announce the
start. A run in which host and guest start shows that this says something. A request that was refused, or cancelled
before its start was tried, is never started by anybody, and a guest that has heard a cancel does not start on a late
message. For a host, a guest and a free node it is stated over all calls when a request ends, when each part of the
node changes, and when each message goes out. Request ids increase, each request is ended at most once, and nothing
that carries the id of a request that is over changes the host. The commit compares the number of participants with
the number of peers: with timely membership events the sets are equal; without them they need not be, and the exact
condition and a run where they are not are given. The object promises at the end of every call, whatever came before,
that it holds one kind of request, that ids have increased, and that each has ended at most once.

**Recolouring.** For every supported format, size, mip count and long enough source, the output read back as RGBA8 is
at every level and pixel the tint of the decoded source pixel, padding bytes are 0, and every access is in bounds.
Each source format is described by its packed fields and their place, and the tint by the nearest number to what it
should be.

**Max life.** Under causal delivery every update adds exactly its gain when it first arrives, nothing when it is
repeated, and at rest all peers hold the start plus all gains, up to 100. An update that says what the game is about
to do itself is counted once and not sent back. Between two peers order per sender is causal order. With three it is
not enough; a run shows it.

**Cloud channel.** With ideal primitives, two ends that exchange keys agree on them, never repeat a nonce under a key,
and each opens a prefix of what the other sealed, whatever texts arrive. An end accepts exactly one text at a time.
With an injective HMAC equal keys mean the same room, the same two ends and the same direction.

**Router.** In every run the recorded size is the size of the queue and both limits hold; whatever reaches the
consumer passed the sync gate at its ingress and again when it was tried, and the stage gate; a flush tries each
waiting message once, in order, and keeps exactly those that must still wait; no queued message is lost or doubled;
each counter is the number of its results. And conversely: what passes the gates is put to the consumer, and what must
wait and fits is queued.

**Text codecs.** Emoji replacement is idempotent, leaves no emoji at any offset, and puts the cursor between two
pieces; a well-formed UTF-8 text stays so, and is never cut inside a character. Base64 decodes what it encodes except
for the empty string, accepts exactly the well-formed texts, and an accepted text is canonical exactly when its unused
bits are zero.

**Texture registrations.** In every run the handles live in the service are those the owners hold, each once; nothing
is given back twice; leaving the lobby leaves none. Whatever is held was made from the memory of an image that the
owner was drawn with, and in a colour it shows the tint of that image at every level and pixel.

## Model

| member | source | states |
|---|---|---|
| DatagramKinds.PeerGroupHeader | include/dusklight_online/net/peer_tunnel.hpp:39-44 | a group header leaves a payload of 58 to 1158 bytes behind it |
| DatagramKinds.ClassOf | src/net/datagram_scheduler.cpp:11-27 | whatever is classified, in an envelope or not, has between 38 and 2048 bytes, so it fits every class limit and the burst |
| DatagramScheduling.DatagramScheduler.constructor | src/net/datagram_scheduler.cpp:57-62 | a new scheduler has no peers, a full bucket and an unstarted clock at 0 |
| DatagramScheduling.DatagramScheduler.Make | src/net/datagram_scheduler.cpp:57-62 | limits that allow no progress (a zero rate, a zero age, a class limit below 2048) are refused, all others accepted |
| DatagramScheduling.DatagramScheduler.AddPeer | src/net/datagram_scheduler.cpp:64-67 | registration fails for a known peer and at 4096 peers; otherwise the peer gets a full bucket and empty queues |
| DatagramScheduling.DatagramScheduler.RemovePeer | src/net/datagram_scheduler.cpp:68 | the peer goes with its queued packets, each recorded as removed |
| DatagramScheduling.DatagramScheduler.MakeRoom | src/net/datagram_scheduler.cpp:77-82 | the eviction loop drops exactly the front packets that `EvictCount` names and keeps the byte counter equal to the queue |
| DatagramScheduling.DatagramScheduler.Send | src/net/datagram_scheduler.cpp:69-86 | a datagram is refused, or queued under the current time after eviction; reliable ones are refused rather than evict |
| DatagramScheduling.DatagramScheduler.Prune | src/net/datagram_scheduler.cpp:94-98 | one lane loses exactly its over-age front |
| DatagramScheduling.DatagramScheduler.RefillAndPrune | src/net/datagram_scheduler.cpp:88-100 | all buckets are refilled for the elapsed time up to the burst and all lanes pruned, in the order of ids |
| DatagramScheduling.DatagramScheduler.ServePeer | src/net/datagram_scheduler.cpp:107-120 | a peer sends from the class whose turn it is, else from the other, if it can pay; otherwise nothing changes |
| DatagramScheduling.DatagramScheduler.ServeOne | src/net/datagram_scheduler.cpp:103-125 | a pass serves the first peer of the rotation that can pay, or changes nothing when nobody can |
| DatagramScheduling.DatagramScheduler.DrainQueues | src/net/datagram_scheduler.cpp:101-126 | the bounded loop does what unbounded draining does and ends with nobody able to pay |
| DatagramScheduling.DatagramScheduler.Update | src/net/datagram_scheduler.cpp:87-127 | the whole update against its specification, and at the end neither class of any peer can be paid |
| SchedulerModel.EvictFewest | src/net/datagram_scheduler.cpp:77-82 | eviction takes the fewest front packets that make room, and always makes room for a datagram within the limit |
| SchedulerModel.StepKeeps | src/net/datagram_scheduler.cpp:64-127 | every operation keeps the invariant: sorted ids that match the peers, byte counters equal to queue sums within the limit, tokens within the burst |
| SchedulerModel.PassSpends | src/net/datagram_scheduler.cpp:102-126 | each send costs at least 64 bytes of the global budget |
| SchedulerBudget.DrainCharges | src/net/datagram_scheduler.cpp:112-115 | what an update hands over is exactly what leaves the global and the peer's account |
| SchedulerBudget.TickCharges | src/net/datagram_scheduler.cpp:87-93 | an update adds the rate times what has elapsed to every account, up to the burst, and what it hands over is exactly what it takes off again |
| SchedulerBudget.RunCharges | src/net/datagram_scheduler.cpp:87-93 | over any run, charges and final balance are covered by the first balance and the refills |
| SchedulerBudget.WindowBound | src/net/datagram_scheduler.cpp:87-127 | rate bound over any window of updates, in all and per registered peer: 4224 bytes plus rate times elapsed time |
| SchedulerBudget.DrainIsShort | src/net/datagram_scheduler.cpp:102-126 | an update makes at most 66 sends and leaves nobody who can pay |
| SchedulerProgress.UpdateBalance | src/net/datagram_scheduler.cpp:87-93 | in milliseconds of the 32-bit clock, in all and per peer: charges plus the new balance are the old balance plus the rate for each millisecond since the last update, at most the burst; the first update adds nothing |
| SchedulerProgress.SpendsItsCredit | src/net/datagram_scheduler.cpp:102-126 | a packet is left at a head only if its peer, or all peers together, have spent their credit down to less than it costs |
| SchedulerProgress.LoneHeadIsSent | src/net/datagram_scheduler.cpp:87-126 | a lone peer's head that is not too old is handed over once the elapsed time, at both rates, covers its cost |
| SchedulerProgress.SeesTimePass | src/net/datagram_scheduler.cpp:88-90 | what a started scheduler counts as elapsed over a run is the difference of the first and the last reading |
| SchedulerProgress.Saves | src/net/datagram_scheduler.cpp:88-93 | over every run in which nothing is handed over, every account fills at its rate up to the burst |
| SchedulerProgress.WaitsOnlyForCredit | src/net/datagram_scheduler.cpp:87-126 | over every run in which nothing is handed over, a packet that waits at its end costs more than the elapsed time covers at one of the two rates |
| SchedulerAnswers.EnvelopedExactly | include/dusklight_online/net/peer_tunnel.hpp:23-27 | an envelope is the magic, two numbers other than zero and 1 to 1200 bytes |
| SchedulerAnswers.KindExactly | src/net/datagram_scheduler.cpp:11-27 | which datagrams are realtime and which reliable, bare, fanned out or in one envelope; all others are invalid |
| SchedulerAnswers.SendAccepts | src/net/datagram_scheduler.cpp:69-86 | a datagram is accepted if and only if the peer is known, it has a class, and it is realtime or fits; it then stands behind the longest rest of its queue that leaves room, and nothing else changes |
| SchedulerAnswers.RealtimeIsAccepted | src/net/datagram_scheduler.cpp:69-86 | a realtime datagram for a known peer is never refused |
| SchedulerAnswers.Joins | src/net/datagram_scheduler.cpp:64-67 | a peer is taken in unless it is known or there are 4096, with empty queues, a full bucket and realtime first; nobody else notices |
| SchedulerAnswers.Leaves | src/net/datagram_scheduler.cpp:68 | a removed peer is gone, and nobody else notices |
| SchedulerFairness.PassesAreCalls | src/net/datagram_scheduler.cpp:102-126 | the calls to the carrier are exactly the passes, in order |
| SchedulerFairness.StuckStays | src/net/datagram_scheduler.cpp:112-113 | within an update, who cannot pay stays unable to |
| SchedulerFairness.RotationIsFair | src/net/datagram_scheduler.cpp:102-126 | between two services of one peer every other is served, or is stuck from then until the update ends |
| SchedulerFairness.ClassesAlternate | src/net/datagram_scheduler.cpp:108-117 | between two services of a peer the classes alternate when the other head can be paid |
| SchedulerHistory.EveryPacketAccountedFor | src/net/datagram_scheduler.cpp:68-116 | accepted packets are those gone plus those queued, in order; sent ones are a subsequence; counters equal queue sums within the limit |
| SchedulerHistory.ReliableNeverEvicted | src/net/datagram_scheduler.cpp:77-82 | no run evicts a reliable packet for space |
| SchedulerClock.AgeTest | src/net/datagram_scheduler.cpp:96 | the wrapping age test is right if and only if the age is below 2^32 ms or wraps to something over the limit |
| SchedulerClock.PruningSuffices | src/net/datagram_scheduler.cpp:94-98 | pruning fronts leaves nothing over age in a queue whose stamps do not decrease |
| SchedulerClock.StepYoung | src/net/datagram_scheduler.cpp:83-116 | a timely step keeps all queued packets young; what is sent is young, what expires is not |
| SchedulerClock.StepWrapped | src/net/datagram_scheduler.cpp:64-127 | a timely step on the wrapping clock is the image of the step on the true clock |
| SchedulerClock.RunWrapped | src/net/datagram_scheduler.cpp:64-127 | over whole timely runs the 32-bit scheduler decides as the true-clock one |
| SchedulerClock.RunFromStart | src/net/datagram_scheduler.cpp:64-127 | the same for the whole life of a scheduler from its start |
| SchedulerFirstUpdate.RunUnstarted | src/net/datagram_scheduler.cpp:51-86 | whatever happens before the first update, everything queued carries the stamp 0 |
| SchedulerFirstUpdate.QueuedBeforeFirstUpdate | src/net/datagram_scheduler.cpp:83-126 | over every run without an update, then a first one: if its reading exceeds the age limit, exactly all queued packets expire and nothing is sent; otherwise nothing expires |
| SpeedrunApp.OnlineApp.constructor | include/dusklight_online/online_app.hpp:132-152 | initial speedrun fields |
| SpeedrunApp.OnlineApp.ClearRequest | src/online_app.cpp:2413-2433 | clearing forgets the request and keeps only the id counter and a pending reset |
| SpeedrunApp.OnlineApp.StartPressed | src/online_app.cpp:2435-2457 | the start button, its refusals and the request it opens; keeps the promise of the object |
| SpeedrunApp.OnlineApp.OpenRequest | src/online_app.cpp:2445-2456 | a new request takes the next 64-bit id and waits for all current peers for 10 seconds |
| SpeedrunApp.OnlineApp.ResetPressed | src/online_app.cpp:2459-2477 | the reset button; keeps the promise of the object |
| SpeedrunApp.OnlineApp.CancelStart | src/online_app.cpp:2502-2508 | only a host request is announced as cancelled |
| SpeedrunApp.OnlineApp.BeginReady | src/online_app.cpp:2510-2524 | the prompt opens when all saves are clear, or the request is cancelled when it cannot be sent |
| SpeedrunApp.OnlineApp.BeginCountdown | src/online_app.cpp:2526-2536 | the countdown begins when the counts agree |
| SpeedrunApp.OnlineApp.ReadInput | src/online_app.cpp:664-673 | the button is read only while the node waits for its player; keeps the promise of the object |
| SpeedrunApp.OnlineApp.Tick | src/online_app.cpp:2559-2671 | one frame: reset, mode, countdown, hold, deadline and save checks, for host and guest; keeps the promise of the object |
| SpeedrunApp.OnlineApp.SendChecks | src/online_app.cpp:2638-2648 | checks go out in the order of ids and stop at the first failure |
| SpeedrunApp.OnlineApp.Commit | src/online_app.cpp:2673-2696 | the commit's guard, its cancel and its start |
| SpeedrunApp.OnlineApp.Hear | src/online_app.cpp:2698-2818 | every message kind with its guards and error branches; keeps the promise of the object |
| SpeedrunApp.OnlineApp.HearReady | src/online_app.cpp:2731-2744 | a save answer counts once per waiting peer; a refusal cancels |
| SpeedrunApp.OnlineApp.HearPlayerReady | src/online_app.cpp:2764-2783 | a player counts once per participant; a refusal cancels |
| SpeedrunApp.OnlineApp.HearPrompt | src/online_app.cpp:2745-2763 | a guest takes a prompt of 1 to 8 players, or declines it |
| SpeedrunApp.OnlineApp.HearOwner | src/online_app.cpp:2745-2817 | the owner's messages about the request a guest takes part in |
| SpeedrunApp.OnlineApp.PeerLeft | src/online_app.cpp:801-806 | a participant's leaving cancels a host request; keeps the promise of the object |
| SpeedrunApp.OnlineApp.PeerJoined | src/online_app.cpp:807-809 | a newcomer cancels a host request; keeps the promise of the object |
| SpeedrunApp.OnlineApp.OwnerChanged | src/online_app.cpp:810-817 | a change of owner clears a request; keeps the promise of the object |
| SpeedrunApp.OnlineApp.Disconnected | src/online_app.cpp:870-872 | a disconnect clears the request and a pending reset; keeps the promise of the object |
| SpeedrunSafety.CountsMeanEverybody | src/online_app.cpp:2510-2536 | the cached counts stand for sets: equal counts mean that every participant and the host is ready |
| SpeedrunSafety.MoveKeeps | src/online_app.cpp:2413-2818 | every move of any node or of the network keeps the lobby invariant |
| SpeedrunSafety.NobodyStartsEarly | src/online_app.cpp:2586-2817 | whoever starts a request, it is backed by clear probes and holds of all its participants and the host |
| SpeedrunSafety.RunIsAnnounced | src/online_app.cpp:2673-2696 | a node begins a run only by announcing it or on the owner's start message |
| SpeedrunSafety.GuestsFollowHost | src/online_app.cpp:2805-2817 | no guest runs a request whose start the host did not try to announce |
| SpeedrunStart.HostEndsOnce | src/online_app.cpp:2435-2508 | in a lobby run the host's ids increase and each request ends at most once |
| SpeedrunStart.OneOpening | src/online_app.cpp:2446-2455 | an id stands for one set of participants |
| SpeedrunStart.SideIsARun | src/online_app.cpp:2413-2818 | each side of a lobby is a run of that node on its own |
| SpeedrunStart.RecordedHold | src/online_app.cpp:2586-2615 | whoever is on record as having held Down did so at every frame of at least a second, within that request |
| SpeedrunStart.EverybodyWasReady | src/online_app.cpp:2510-2817 | the main safety theorem, for the one set of participants the request was opened for: clear probes, and Down held at every frame of at least a second, of all of them and the host |
| SpeedrunCancel.CancelFrees | src/online_app.cpp:2801-2804 | a guest that hears the owner's cancel of its request holds no request afterwards; a cancel of another changes nothing |
| SpeedrunCancel.CancelIsFinal | src/online_app.cpp:2801-2817 | in every lobby run a guest that has heard the cancel of a request does not start it later unless a check for it reaches the guest in between |
| SpeedrunCancel.RefusalCancels | src/online_app.cpp:2731-2783 | a refusal by a waited-for peer, or by a participant while players are awaited, ends the host's request and tries a cancel, and nothing else |
| SpeedrunCancel.CancelledNeverRuns | src/online_app.cpp:2502-2817 | in every lobby run, a request whose cancel the host has tried, and not its start in the same call, is never started by anybody |
| SpeedrunCancel.RefusedNeverRuns | src/online_app.cpp:2731-2817 | in every lobby run a refused request is never started by anybody |
| SpeedrunHost.HostExactly | src/online_app.cpp:2435-2818 | over all calls: a host's request ends exactly when it is called off, started, reset or dropped, and nothing of it is left; until then each of its parts changes exactly at the calls named for it |
| SpeedrunHost.HostSaysExactly | src/online_app.cpp:2435-2818 | over all calls: each message, probe, hold and start of a host happens exactly at the calls named for it, in order, with its contents |
| SpeedrunHost.HoldClock | src/online_app.cpp:2587-2596 | the hold counts from the first frame that sees Down, and is dropped when Down is let go or the hold is complete |
| SpeedrunHost.ChecksReach | src/online_app.cpp:2638-2648 | a participant is asked if and only if it can be reached and everybody before it takes the check |
| SpeedrunHost.ChecksInOrder | src/online_app.cpp:2638-2648 | the checks go to participants only, in the order of their ids, each at most once |
| SpeedrunGuest.GuestExactly | src/online_app.cpp:2559-2818 | over all calls: a guest's request ends exactly when it times out, fails, is cancelled, declined, reset, started or dropped; until then each part changes, and each message is sent, exactly at the calls named for it |
| SpeedrunGuest.FreeExactly | src/online_app.cpp:2435-2477 | a node without a request opens one, takes one up or is reset, and nothing else |
| SpeedrunRequests.CallSpends | src/online_app.cpp:2413-2818 | every call but a successful press only uses up the right to end a request |
| SpeedrunRequests.PressOpens | src/online_app.cpp:2446-2449 | a press opens a larger id if and only if the 64-bit counter does not overflow |
| SpeedrunRequests.RunExclusive | src/online_app.cpp:2445-2449 | in every run no node holds a host request and a guest request at once |
| SpeedrunRequests.RequestsEndOnce | src/online_app.cpp:2446-2508 | over every run ids strictly increase and at most one start or cancel is accepted per id |
| SpeedrunRequests.OtherIdsIgnored | src/online_app.cpp:2717-2783 | the host ignores any message with another id than its open request's |
| SpeedrunRequests.OverForGood | src/online_app.cpp:2698-2783 | once a request is over, no later message with its id changes the host |
| SpeedrunRequests.CommitHasEverybody | src/online_app.cpp:801-809 | with membership events before the next frame, a commit's participants are the current peers |
| SpeedrunRequests.CommitComparesSizes | src/online_app.cpp:2673-2681 | the size guard gives the right set if and only if no participant is missing from the peers |
| SpeedrunExample.CommitWithAStranger | src/online_app.cpp:2678-2690 | a run of a lobby after which the guard lets a wrong set through |
| SpeedrunExample.BothRun | src/online_app.cpp:2435-2818 | a run of a lobby in which host and guest both start: the promises about starts are not empty |
| SpeedrunRequests.HeldForASecond | src/online_app.cpp:2586-2596 | who is counted held Down at every frame of at least a second within one request |
| SpeedrunRequests.CallKeepsSound | src/online_app.cpp:2413-2818 | every call keeps what the object promises: one kind of request at a time, holds only while players are awaited, increasing ids, one end for each |
| TextureLayout.ComputeTextureSize | src/game/player_color.cpp:51-61 | the size loop computes the sum of the level sizes, or 0 for what is not supported |
| TextureLayout.LevelsAddUp | src/game/player_color.cpp:55-59 | the size of the first levels is where the next one begins |
| TextureLayout.PixelInLevel | src/game/player_color.cpp:71-85 | every block and tile read for a pixel lies inside its level |
| TextureLayout.AddressDetermines | src/game/player_color.cpp:92-93 | pixel and channel are recovered from the output address, so writes never collide |
| TextureLayout.AddressCovers | src/game/player_color.cpp:92-93 | every output address belongs to one pixel and channel of the tile grid |
| TextureLayout.AddressInLevel | src/game/player_color.cpp:92-93 | every write lies inside its level |
| PlayerColor.TintKeepsEnds | src/game/player_color.cpp:39-49 | black stays black, white stays white, alpha stays |
| PlayerColor.ShadeMonotone | src/game/player_color.cpp:42-46 | lighter pixels are never tinted darker, across both halves of the blend |
| PlayerColor.DecodePixel | src/game/player_color.cpp:70-90 | the four decoders with their bounds |
| PlayerColor.PutPixel | src/game/player_color.cpp:92-93 | one pixel's four bytes are written and nothing else |
| PlayerColor.PaintPixel | src/game/player_color.cpp:69-94 | painting the next pixel keeps all earlier ones and all padding |
| PlayerColor.RecolorLevel | src/game/player_color.cpp:68-94 | one level is filled as specified and the rest of the buffer is left alone |
| PlayerColor.Recolor | src/game/player_color.cpp:62-101 | the whole buffer, or empty for unsupported or truncated input |
| PlayerColor.LevelReadsBack | src/game/player_color.cpp:69-94 | a recoloured level decodes to the tint of the decoded source |
| PlayerColor.LevelsInPlace | src/game/player_color.cpp:66-98 | each output level lies at the sum of the sizes before it |
| PlayerColor.RecolorIsTint | src/game/player_color.cpp:62-101 | decode after recolour is tint after decode, at every level and pixel |
| PlayerColor.PaddingIsZero | src/game/player_color.cpp:66-67 | bytes of no pixel are 0 |
| PixelFormats.Rgb565Fields | src/game/player_color.cpp:29-32 | 5, 6 and 5 bits of red, green and blue from the top, each on the scale of a byte |
| PixelFormats.Rgb5a3Opaque | src/game/player_color.cpp:33-35 | with the top bit, 5 bits each of red, green and blue |
| PixelFormats.Rgb5a3Clear | src/game/player_color.cpp:36-37 | without it, 3 bits of alpha and 4 each of red, green and blue |
| PixelFormats.ScaledEnds | src/game/player_color.cpp:29-37 | the ends of a field are the ends of a byte, and a larger field gives no smaller byte |
| PixelFormats.ReadsWord | src/game/player_color.cpp:82-86 | the word of a 16-bit pixel, high byte first, at tile, row and column in reading order |
| PixelFormats.ReadsSelector | src/game/player_color.cpp:70-81 | tiles, blocks and rows of CMPR in reading order; four selectors to a byte, the leftmost on top |
| PixelFormats.PaletteColors | src/game/player_color.cpp:73-80 | two end colours; two between them a third of the way from either, or their mean and a transparent black, as the first word is larger or not |
| PixelFormats.TilesFit | src/game/player_color.cpp:57-58 | the tiles of a level cover it and none is empty |
| PixelFormats.SupportedExactly | src/game/player_color.cpp:51-53 | which sizes, level counts and formats are supported |
| PixelFormats.LevelHolds | src/game/player_color.cpp:55-58 | a level takes the bits of its pixels in whole tiles: 4, 16 or 32 for each |
| PixelFormats.MipSizeHalves | src/game/player_color.cpp:59 | level m has the size divided by 2^m, rounded down, and at least one pixel |
| PixelFormats.LightIsNearest | src/game/player_color.cpp:42 | the luminance is the nearest number to the Rec.709 mean |
| PixelFormats.TintIsNearest | src/game/player_color.cpp:39-48 | each channel is the nearest number to the way from black, or white, to that channel of the colour, by the luminance alone; alpha stays |
| PixelFormats.MiddleIsChosen | src/game/player_color.cpp:45-46 | middle grey becomes the chosen colour, within one step |
| MaxLife.GameAdapter.NotifyLocalMaxLife | src/game/game_adapter.cpp:2492-2506 | a local gain is published once under the next nonzero 32-bit number, unless it is suppressed |
| MaxLife.GameAdapter.ConsumeMaxLifeUpdate | src/game/game_adapter.cpp:5970-6011 | the receiving branch with its rejections, sequence check and merge |
| MaxLife.AddsExactlyItsGain | src/game/game_adapter.cpp:5998-6002 | a new pickup adds exactly its gain, up to 100, if and only if the receiver holds at least what the sender held before |
| MaxLifePending.ArrivalOutcome | src/game/game_adapter.cpp:5970-6011 | which updates are rejected, which applied and which ignored, and what is left to suppress; life never falls and never passes 100 |
| MaxLifePending.ArrivalNotes | src/game/game_adapter.cpp:5981-5988 | the newest number of a sender goes up with each newer pickup, even one that is anticipated |
| MaxLifePending.UnnumberedRaises | src/game/game_adapter.cpp:5998-6004 | an update without a number raises life to its value and no further |
| MaxLifePending.Publishes | src/game/game_adapter.cpp:2492-2506 | a raise is published if and only if it is one, nothing keeps it quiet and it is not the one to suppress; it takes the next nonzero number |
| MaxLifePending.AnticipatedCountsOnce | src/game/game_adapter.cpp:5992-5997 | an update equal to the pending native gain is not added, and keeps exactly the next raise quiet if it is that gain; all later ones are published |
| MaxLifeSync.FirstArrival | src/game/game_adapter.cpp:5981-5991 | under causal delivery a first arrival is new to the receiver, who holds at least the sender's previous value |
| MaxLifeSync.RepeatedArrival | src/game/game_adapter.cpp:5982-5991 | a repeated arrival changes nothing |
| MaxLifeSync.PickupPublishes | src/game/game_adapter.cpp:2501-2505 | a pickup publishes the next number of its peer |
| MaxLifeSync.EveryArrivalAddsItsGain | src/game/game_adapter.cpp:5998-6004 | in every causal run each first arrival adds exactly its gain, up to 100 |
| MaxLifeSync.AllAgreeAtRest | src/game/game_adapter.cpp:5970-6011 | at rest every peer holds min(100, start + all gains), whatever the interleaving |
| MaxLifeFifo.OrderIsCausalForTwo | src/game/game_adapter.cpp:5981-5991 | between two peers, order per sender is causal order |
| MaxLifeFifo.TwoPeersAgree | src/game/game_adapter.cpp:5970-6011 | two peers with order per sender: each first arrival adds exactly its gain, and at rest both hold min(100, start + all gains) |
| MaxLifeFifo.SenderOrderIsNotEnough | src/game/game_adapter.cpp:5982-6002 | a run of three peers that keeps the order per sender and ends with a peer that has counted a gain twice |
| HexText.UnhexHex | src/net/auth_code.cpp:81-102 | decoding undoes encoding |
| HexText.HexUnhex | src/net/cloud_cipher.cpp:105-110 | each byte string has only one accepted text |
| HexText.HexOf | src/net/cloud_cipher.cpp:18-24 | the encoding loop |
| HexText.UnhexOf | src/net/auth_code.cpp:81-91 | the decoding loop refuses an odd length and anything but lower-case digits |
| HexText.BigEndianBack | src/net/cloud_cipher.cpp:30-34 | a number below 2^64 is recovered from its eight bytes |
| CloudChannel.CloudCipher.constructor | src/net/cloud_cipher.cpp:47-52 | a channel is valid only with a well-formed route and random bytes |
| CloudChannel.CloudCipher.Exchange | src/net/cloud_cipher.cpp:61-82 | key agreement and derivation, and the refusals before and after it |
| CloudChannel.CloudCipher.MakeNonce | src/net/cloud_cipher.cpp:30-34 | the nonce loop writes four zeros and the big-endian number |
| CloudChannel.CloudCipher.Seal | src/net/cloud_cipher.cpp:84-97 | a record takes the next number, or sealing is refused and nothing changes |
| CloudChannel.CloudCipher.Open | src/net/cloud_cipher.cpp:99-121 | only the expected number moves the counter; every refusal leaves the channel as it was |
| CloudChannel.KeysMatch | src/net/cloud_cipher.cpp:61-82 | two ends that exchange keys get each other's, different per direction, unless the secret is all zero |
| CloudBinding.KeysAreHkdf | src/net/cloud_cipher.cpp:72-77 | each direction's key is HKDF of the secret, salted with the route and both public keys, under the name of the direction |
| CloudBinding.ExchangesExactly | src/net/cloud_cipher.cpp:61-82 | when an exchange succeeds, and what a failed one leaves |
| CloudBinding.KeysBind | src/net/cloud_cipher.cpp:72-77 | with an injective HMAC, equal keys mean the same room, the same client and server, and the same direction |
| CloudBinding.PartnersAgree | src/net/cloud_cipher.cpp:61-82 | if one end sends under what another receives under, they have the same route, opposite roles and each other's public keys |
| CloudBinding.RoomsShareNoKey | src/net/cloud_cipher.cpp:72 | ends with different routes share no key |
| CloudBinding.InjectiveIsPossible | src/net/cloud_cipher.cpp:61-121 | an injective HMAC can be had with everything else that is assumed |
| CloudBinding.NewEnd | src/net/cloud_cipher.cpp:47-59 | an end is of use if and only if its route is a digest and there are random bytes; its public key is that of those bytes |
| CloudBinding.DigestExactly | src/net/auth_code.cpp:140-147 | a digest is 64 digits without capitals |
| CloudBinding.SealsExactly | src/net/cloud_cipher.cpp:84-86 | sealing succeeds if and only if there are keys, at most 16384 bytes and a number left |
| CloudBinding.OpensExactly | src/net/cloud_cipher.cpp:99-121 | a text opens if and only if it is a record of the next number whose box opens; only then does anything change |
| CloudBinding.WireFormat | src/net/cloud_cipher.cpp:84-97 | the bytes of a record: prefix, number, box; and the nonce and associated data the box is made with |
| CloudBinding.HexDigits | src/net/cloud_cipher.cpp:18-24 | the two digits of a byte |
| CloudChannel.ExchangeStarts | src/net/cloud_cipher.cpp:61-82 | two exchanged ends are in the start state of the runs below |
| CloudChannel.OneExchange | src/net/cloud_cipher.cpp:61-70 | a well-formed key spends the private key: it is wiped and no later exchange does anything |
| CloudChannel.NonceDetermines | src/net/cloud_cipher.cpp:30-34 | different numbers give different nonces |
| CloudChannel.SealOpens | src/net/cloud_cipher.cpp:84-121 | a record that arrives in its turn opens to what was sealed |
| CloudChannel.SealingKeeps | src/net/cloud_cipher.cpp:84-97 | sealing never repeats a nonce under a key |
| CloudChannel.OpensNext | src/net/cloud_cipher.cpp:99-121 | whatever opens is the other end's next unopened plaintext |
| CloudChannel.AcceptsExactlyNext | src/net/cloud_cipher.cpp:99-121 | an end accepts a text if and only if it is the other end's next one, character by character |
| CloudChannel.OpenedIsPrefix | src/net/cloud_cipher.cpp:84-121 | in every run what an end has opened is a prefix of what the other sealed, and no nonce is reused |
| CloudChannel.IdealIsPossible | src/net/cloud_cipher.cpp:61-121 | what is assumed of the primitives can be met |
| RouterModel.TurnTries | src/game/protocol_router.cpp:242-254 | one turn of the flush settles the front message or puts it back unchanged, with the size still exact |
| RouterModel.TurnsRotate | src/game/protocol_router.cpp:241-255 | after some turns the queue is what was not tried yet, then what must still wait |
| RouterModel.FlushFilters | src/game/protocol_router.cpp:236-258 | the rotating flush is a filter: each message tried once, in order, those that must wait kept in order |
| RouterModel.SyncOffDrops | src/game/protocol_router.cpp:175-178 | a flush with sync off leaves nothing that sync controls |
| RouterModel.DeferredIsQueued | src/game/protocol_router.cpp:191-202 | a message is queued if and only if the result says deferred |
| RouterGates.AskedExactly | src/game/protocol_router.cpp:166-199 | an attempt asks retain, discard, allow and consume in this order, each at most once, and puts exactly the messages that pass all gates to the consumer |
| RouterGates.Verdict | src/game/protocol_router.cpp:166-210 | the result, the error and the counting of an attempt, by the gates |
| RouterGates.RoutedExactly | src/game/protocol_router.cpp:166-234 | an incoming message is consumed if and only if it passes, and queued if and only if it must wait and fits; what does not fit is rejected, fatally unless it cannot be written out |
| RouterGates.OtherEvents | src/game/protocol_router.cpp:116-156 | the results and errors of all other events |
| RouterGates.FlushedExactly | src/game/protocol_router.cpp:236-258 | a flush consumes exactly the waiting messages that pass, keeps exactly those that must still wait, in order, and lets the others go |
| RouterGates.FlushReports | src/game/protocol_router.cpp:205-258 | after a flush in any run the last error is that of a malformed message if there was one |
| RouterGates.StartsAfresh | src/game/protocol_router.cpp:260-267 | clearing leaves a new router but for the counters |
| ProtocolRouting.ProtocolRouter.constructor | src/game/protocol_router.cpp:101 | an empty router |
| ProtocolRouting.ProtocolRouter.Route | src/game/protocol_router.cpp:116-164 | all event kinds; a message is judged by the flag it carries |
| ProtocolRouting.ProtocolRouter.RouteMessage | src/game/protocol_router.cpp:166-210 | the order of the gates, the calls made to the consumer and every exception |
| ProtocolRouting.ProtocolRouter.Enqueue | src/game/protocol_router.cpp:212-234 | both limits, without wrap-around; overflow is fatal and leaves the queue alone |
| ProtocolRouting.ProtocolRouter.FlushOne | src/game/protocol_router.cpp:243-254 | one turn of the loop, without wrap-around |
| ProtocolRouting.ProtocolRouter.Flush | src/game/protocol_router.cpp:236-258 | the loop takes exactly as many turns as messages were waiting |
| ProtocolRouting.ProtocolRouter.Clear | src/game/protocol_router.cpp:260-267 | the queue, the error and the fatal flag go; the counters stay |
| RouterRuns.QueueIsBounded | src/game/protocol_router.cpp:212-258 | in every run the size on record is the sum of the queued sizes and both limits hold |
| RouterRuns.GatesHold | src/game/protocol_router.cpp:158-204 | in every run each call to the consumer passed the sync gates, and each application the retain, discard and stage gates |
| RouterRuns.NothingIsLost | src/game/protocol_router.cpp:199-267 | in every run queued messages are those that left and those that wait, each as often, and waiting ones are in order |
| RouterRuns.CountersTally | src/game/protocol_router.cpp:236-293 | in every run each counter is the number of its results, over all events and all flush attempts but those that wait for the stage |
| ChatEmoji.FindEmojiComplete | src/game/chat_emoji.cpp:31-40 | the table search fails if and only if no spelling is a prefix |
| ChatEmoji.Replace | src/game/chat_emoji.cpp:43-79 | the loop's text and cursor, and `changed` if and only if the text differs |
| ChatEmoji.TakePiece | src/game/chat_emoji.cpp:54-75 | one turn of the loop: an emoji becomes its shortcode, anything else is copied up to the next code point |
| ChatEmoji.ReplacesSpelled | src/game/chat_emoji.cpp:54-66 | a step replaces if and only if its text starts with an emoji |
| ChatEmoji.PrefixWasThere | src/game/chat_emoji.cpp:49-76 | replacement never makes an emoji that was not there |
| ChatEmoji.ReplacedIsClean | src/game/chat_emoji.cpp:49-76 | no emoji is left at any offset, visited or not, valid UTF-8 or not |
| ChatEmoji.Idempotent | src/game/chat_emoji.cpp:43-79 | a second pass finds nothing to change |
| ChatEmoji.UnchangedExactly | src/game/chat_emoji.cpp:43-79 | a text stays as it is if and only if it has no emoji anywhere |
| ChatEmoji.CursorAtBoundary | src/game/chat_emoji.cpp:50-77 | at a visited offset the cursor goes to the length of the replacement of the text before it, and the halves are independent |
| ChatEmoji.RoundUpIsLeast | src/game/chat_emoji.cpp:61-72 | the offset used for a cursor is the least visited one not before it |
| ChatEmoji.CursorLands | src/game/chat_emoji.cpp:47-77 | wherever the cursor was, it lands between two pieces |
| ChatEmoji.ShortcodeMatches | src/game/chat_emoji.cpp:20-29 | the shortcode written for an emoji is matched as that emoji, whatever follows |
| ChatUtf8.StaysWellFormed | src/game/chat_emoji.cpp:43-79 | a well-formed UTF-8 text stays well-formed |
| ChatUtf8.VisitsCharacters | src/game/chat_emoji.cpp:8-14 | in a well-formed text every visited offset is a character boundary |
| ChatUtf8.CursorAtCharacter | src/game/chat_emoji.cpp:47-77 | the new cursor is a character boundary of the new text |
| ChatUtf8.VisitedInside | src/game/chat_emoji.cpp:8-14 | in any bytes at all, an offset is visited at a continuation byte if and only if it is directly behind a replaced emoji |
| ChatUtf8.StrayByte | src/game/chat_emoji.cpp:54-66 | a text where that happens |
| ChatUtf8.ShortcodeExactly | src/game/chat_emoji.cpp:20-29 | a shortcode is two colons at most 32 apart with an alias between them, and stands for the first alias of that name |
| ChatUtf8.FindsFirstEmoji | src/game/chat_emoji.cpp:32-40 | the first emoji of the table counts, and its spelling with the selector before the bare one |
| ChatUtf8.MatchExactly | src/game/chat_emoji.cpp:18-41 | a shortcode goes before a spelling, and there is nothing else |
| Base64.LookupSymbol | src/game/game_adapter.cpp:596-597 | the 64 symbols have distinct values and none is the pad |
| Base64.Alphabet | src/game/game_adapter.cpp:596-597 | the alphabet of RFC 4648 |
| Base64.QuadIsNumber | src/game/game_adapter.cpp:599-614 | a group is one number in base 64 and base 256; pads stand for missing bytes only |
| Base64.Encode | src/game/game_adapter.cpp:599-614 | the loop over 24-bit chunks is six-bit regrouping with pads |
| Base64.EncodedLength | src/game/game_adapter.cpp:599-614 | four characters for every three bytes or part of them |
| Base64.Decode | src/game/game_adapter.cpp:616-645 | the loop over groups, with every refusal |
| Base64.DecodeGroup | src/game/game_adapter.cpp:626-643 | the inner loop: pads only at the very end, nothing after a pad |
| Base64.RoundTrip | src/game/game_adapter.cpp:599-645 | decoding undoes encoding if and only if there is at least one byte |
| Base64.AcceptedExactly | src/game/game_adapter.cpp:616-645 | which texts are accepted, and how many bytes they stand for |
| Base64.ReencodesExactly | src/game/game_adapter.cpp:599-645 | an accepted text is its own re-encoding if and only if its unused bits are zero |
| AppearanceModel.DropKeeps | src/game/appearance.cpp:137-142 | giving back what was not seen keeps handles and owners in balance |
| AppearanceModel.PutKeeps | src/game/appearance.cpp:131-134 | so does replacing one registration |
| AppearanceModel.ApplyKeeps | src/game/appearance.cpp:88-143 | an apply keeps the balance, whatever registrations fail |
| AppearanceModel.ReleaseKeeps | src/game/appearance.cpp:82-87 | so does a release |
| AppearanceModel.ReleaseEachEmpties | src/game/appearance.cpp:54-57 | releasing the first owner until none is left empties the service too |
| AppearanceModel.HandlesBalance | src/game/appearance.cpp:54-143 | in every run the live handles are exactly those held, each held once and showing what was asked for its owner, pointer and colour |
| AppearanceModel.HeldShowsTint | src/game/appearance.cpp:99-134 | in every run each registration is live and was made from the memory of an image at its pointer that an apply was given for its owner; in a colour it shows, at every level and pixel, the tint of that image's pixel |
| AppearanceModel.ApplyOwns | src/game/appearance.cpp:88-143 | after an apply an owner holds only pointers just seen, in the colour last asked for if nothing failed; other owners keep theirs |
| AppearanceImages.GarmentNames | src/game/appearance.cpp:25-33 | which names are green clothes and which zora armour |
| AppearanceImages.AskedExactly | src/game/appearance.cpp:100-108 | which textures are replaced, and in which of the two colours |
| AppearanceImages.LevelsKept | src/game/appearance.cpp:111 | a mipmapped image keeps all its levels, any other has one |
| AppearanceImages.HeldDefaultIsNative | src/game/appearance.cpp:112-130 | in every run a texture in the default colour is byte for byte the memory of an image; one in another is RGBA8 |
| AppearanceImages.ImagesExactly | src/game/appearance.cpp:92-98 | an apply looks at all textures of all loaded models and at nothing else |
| AppearanceImages.WantedIsShown | src/game/appearance.cpp:88-136 | with a service that does not fail, every pointer is left in the colour that the last usable image with it asks for |
| AppearanceImages.GrantedExactly | src/game/appearance.cpp:131-132 | a registration that succeeds has the fresh handle it was given |
| AppearanceImages.ReleasesOne | src/game/appearance.cpp:54-87 | a release concerns one owner |
| AppearanceImages.RedrawIsFree | src/game/appearance.cpp:109-142 | an apply that finds everything as asked calls the service not once and changes nothing |
| TextureReplacements.Cache.constructor | src/game/appearance.cpp:16-23 | nothing registered |
| TextureReplacements.Cache.SetLobbyActive | src/game/appearance.cpp:54-57 | leaving the lobby ends with no owner and no live handle |
| TextureReplacements.Cache.ReleaseOwner | src/game/appearance.cpp:82-87 | exactly the owner's handles are given back |
| TextureReplacements.Cache.GiveBack | src/game/appearance.cpp:85 | each handle is live when it is given back, so none is given back twice |
| TextureReplacements.Cache.ApplyTo | src/game/appearance.cpp:88-143 | the loops over models and textures and the sweep at the end |
| TextureReplacements.Cache.ApplyImage | src/game/appearance.cpp:99-135 | one texture with every `continue` |
| TextureReplacements.Cache.MakeTexture | src/game/appearance.cpp:111-130 | a supported size always gives pixels: the check for empty ones never fires |

## Left out

- DatagramScheduling.DatagramScheduler.Update: tokens are exact thousandths of a byte; the program keeps them in doubles, whose rounding is not modelled.
- SchedulerFairness.RotationIsFair: says nothing across updates; a cheap class can keep spending tokens that a large head packet needs.
- SchedulerClock.RunFromStart: holds for sends after the first update and update gaps below 2^32 ms less the age limit; `SchedulerFirstUpdate.QueuedBeforeFirstUpdate` says what happens to earlier sends.
- SpeedrunStart.EverybodyWasReady: assumes one fixed owner; owner migration is modelled only as the clearing of a node's own request. No liveness over a network that may lose messages is claimed.
- SpeedrunSafety.NobodyStartsEarly: a run holds fewer than 2^32 - 1 participants and stays below the 64-bit id limit; both are conditions on the run.
- SpeedrunApp.OnlineApp.Hear: a message is a record of its fields; the texts of cancel reasons, notifications and menus are left out, and peer names are numbers.
- MaxLifeSync.AllAgreeAtRest: assumes causal delivery, no native gain pending (`MaxLifePending` says what one does), and fewer than 2^32 numbered pickups of a peer; between two peers order per sender suffices, and `SenderOrderIsNotEnough` shows why it does not with three.
- CloudBinding.KeysBind: assumes an HMAC without collisions.
- CloudChannel.OpenedIsPrefix: HMAC, X25519 and ChaCha20-Poly1305 are ideal functions; that nobody else can make a box that opens is a condition on runs, not a theorem.
- RouterModel.FlushFilters: order is claimed within the queue only; a message that comes in while the stage is ready overtakes waiting ones.
- ProtocolRouting.ProtocolRouter.Route: the table from message types to gates is not part of this model, a message carries its classification; counters do not wrap, and the two size fields of the statistics, always overwritten on reading, are left out.
- ChatEmoji.Replace: the generated tables are a parameter with the properties they have: emoji start with a lead byte, contain no colon, canonical names are ASCII.
- ChatEmoji.ShortcodeMatches: says that the shortcode matches when the search starts at its colon; text before it that ends in an open colon can pair with that colon.
- Base64.Decode: what a failed decode leaves in the output buffer is not modelled.
- TextureReplacements.Cache.GiveBack: an owner's pointers are visited in any order, where the program takes map order; the result does not depend on it.
- TextureReplacements.Cache.Register: the service is modelled by its promise never to give out a live handle; it may fail at any time.
- Game engine, UI, transport, websockets, voice and audio: foreign calls on state outside these files.
- The record of the save probe, the held button, stage readiness and the random source: inputs.
- Colour text parsing, room routes, lobby proofs and key stretching: short value computations without state.
- Wallet, bottle, Poe, floor-switch and other merges in the game adapter: their headers hold rules of their own.
- SHA-256 and PBKDF2: taken as opaque functions.
