/** The locking code of every thread of the empeg build, function by function, with its accesses to the
    structures the locks guard. The decisions between them are left open. */
module Threads {
  import opened LockOrder

  // A critical section whose lock is the last one released.
  function Within(l: Lock, body: Code): Code {
    Take(l).Then(body).Then(Drop(l))
  }

  function Reading(l: Lock, body: Code): Code {
    Read(l).Then(body).Then(Drop(l))
  }

  function Write(l: Lock): Code { Use(l, true) }

  function Look(l: Lock): Code { Use(l, false) }

  // A critical section with no other lock operation inside.
  function Touch(l: Lock): Code {
    Within(l, Write(l))
  }

  // stat.c: lets go of the database between songs
  function AddSong(): Code {
    Drop(DatabaseInfo).Then(Take(DatabaseInfo)).Then(Write(DatabaseInfo))
  }

  function StartSongPicker(): Code {
    Within(DatabaseInfo, Write(DatabaseInfo).Then(Repeat(AddSong())).Then(Write(DatabaseInfo)))
  }

  // database.c, for TYPE_STAT
  function LoadOne(): Code {
    Drop(DatabaseInfo).Then(Touch(DatabaseInfo)).Then(Read(DatabaseInfo)).Then(Look(DatabaseInfo))
  }

  function LoadAllMetaData(): Code {
    Reading(DatabaseInfo, Look(DatabaseInfo).Then(Repeat(LoadOne())))
  }

  // global_squash.c: lets go of the state after each song
  function LoadOneSong(): Code {
    Take(DatabaseInfo).Then(Take(SongQueue))
    .Then(Write(StateInfo)).Then(Write(DatabaseInfo)).Then(Write(SongQueue))
    .Then(Drop(DatabaseInfo)).Then(Drop(SongQueue))
    .Then(Drop(StateInfo)).Then(Take(StateInfo))
  }

  function ReadState(): Code {
    Within(StateInfo, Write(StateInfo).Then(Touch(DisplayInfo)))
  }

  function LoadState(): Code {
    ReadState().Then(Within(StateInfo, Repeat(LoadOneSong()).Then(Write(StateInfo))))
  }

  // squash.c
  function LoadNames(): Code {
    Within(DisplayInfo, Write(DisplayInfo).Then(Touch(DatabaseInfo)))
  }

  function SetupDatabase(): Code {
    LoadNames()
    .Then(Touch(SpectrumRing))
    .Then(Touch(PlayerCommand))
    .Then(LoadState())
    .Then(Touch(SongQueue))
    .Then(LoadAllMetaData())
    .Then(StartSongPicker())
  }

  function SaveState(): Code {
    Write(StateInfo).Then(Look(DisplayInfo)).Then(Look(DatabaseInfo)).Then(Look(SongQueue)).Then(Look(PlayerInfo))
  }

  function StateSaver(): Code {
    Forever(
      Within(StateInfo, Within(DisplayInfo, Reading(DatabaseInfo, Within(SongQueue, Within(PlayerInfo, SaveState()))))))
  }

  // The power thread and do_quit both leave a message for main.
  function SetExitStatus(): Code { Touch(StatusInfo) }

  // main, once every thread is started, until it is told to exit
  function MainWait(): Code {
    Take(StatusInfo).Then(Forever(Look(StatusInfo).Then(Sleep(StatusInfo))))
  }

  // display.c: the song queue is released before the past queue
  function Draw(): Code {
    Write(DisplayInfo).Then(Look(DatabaseInfo)).Then(Look(SongQueue)).Then(Look(PlayerInfo))
  }

  function DrawLists(): Code {
    Take(SongQueue).Then(Take(PastQueue))
    .Then(Within(PlayerInfo, Draw()))
    .Then(Drop(SongQueue)).Then(Drop(PastQueue))
  }

  function DisplayMonitor(): Code {
    Forever(Within(DisplayInfo, Sleep(DisplayInfo).Then(Reading(DatabaseInfo, DrawLists()))))
  }

  // playlist_manager.c: both waits let go of the database first
  function LetGoAndSleep(): Code {
    Drop(DatabaseInfo).Then(Sleep(SongQueue)).Then(Drop(SongQueue))
    .Then(Take(DatabaseInfo)).Then(Take(SongQueue))
    .Then(Look(SongQueue)).Then(Look(DatabaseInfo))
  }

  // A song is picked and queued, and changed statistics are saved.
  function AddToQueue(): Code {
    Look(SongQueue).Then(Repeat(LetGoAndSleep()))
    .Then(Look(DatabaseInfo)).Then(Repeat(LetGoAndSleep()))
    .Then(Write(DatabaseInfo)).Then(Write(SongQueue))
  }

  function AwaitSize(): Code {
    Within(SongQueue, Look(SongQueue).Then(Repeat(Sleep(SongQueue).Then(Look(SongQueue)))))
  }

  function PlaylistManager(): Code {
    AwaitSize().Then(Forever(Within(DatabaseInfo, Within(SongQueue, AddToQueue()))))
  }

  // player.c
  function AddFrame(): Code {
    Write(FrameBuffer).Then(Repeat(Sleep(FrameBuffer).Then(Look(FrameBuffer))))
  }

  function FrameDecoder(): Code {
    Forever(Within(FrameBuffer, AddFrame()))
  }

  // spectrum.c
  function SpectrumReset(): Code {
    Within(SpectrumRing, Within(SpectrumInfo, Write(SpectrumRing).Then(Write(SpectrumInfo))))
  }

  // The spectrum thread, which only the other builds start. It waits without its two own locks.
  function AwaitSpectrum(): Code {
    Drop(SpectrumInfo).Then(Drop(SpectrumRing)).Then(Sleep(DisplayInfo))
    .Then(Take(SpectrumInfo)).Then(Take(SpectrumRing))
  }

  function PrepareSpectrum(): Code {
    Take(SpectrumRing).Then(Repeat(AwaitSpectrum()))
    .Then(Write(SpectrumRing)).Then(Write(SpectrumInfo)).Then(Drop(SpectrumRing))
  }

  function RenderSpectrum(): Code {
    Write(SpectrumInfo).Then(Write(DisplayInfo)).Then(Drop(SpectrumInfo))
  }

  function SpectrumTurn(): Code {
    Take(DisplayInfo)
    .Then(Take(SpectrumInfo).Then(PrepareSpectrum()).Then(RenderSpectrum()))
    .Then(Drop(DisplayInfo))
  }

  function SpectrumMonitor(): Code { Forever(SpectrumTurn()) }

  // The player's command loop; only a stop inside a song resets the spectrum.
  function EnterCommands(): Code {
    Drop(PlayerCommand)
    .Then(Take(DatabaseInfo)).Then(Take(PlayerInfo)).Then(Take(PlayerCommand)).Then(Take(FrameBuffer))
  }

  function LeaveCommands(): Code {
    Drop(PlayerInfo).Then(Drop(FrameBuffer)).Then(Drop(DatabaseInfo))
  }

  // Whatever the commands are, they work on these four.
  function Obeying(): Code {
    Write(DatabaseInfo).Then(Write(PlayerInfo)).Then(Write(PlayerCommand)).Then(Write(FrameBuffer))
  }

  function ReadCommands(reset: Code): Code {
    EnterCommands().Then(Repeat(Obeying().Then(Maybe(reset)))).Then(LeaveCommands())
  }

  function LockForNextSong(): Code {
    Read(DatabaseInfo).Then(Take(SongQueue)).Then(Take(PlayerInfo)).Then(Take(FrameBuffer))
    .Then(Look(SongQueue))
  }

  function AwaitSong(): Code {
    Drop(FrameBuffer).Then(Drop(PlayerInfo)).Then(Drop(DatabaseInfo))
    .Then(Sleep(SongQueue)).Then(Drop(SongQueue))
    .Then(LockForNextSong())
  }

  function TakeSong(): Code {
    Write(SongQueue).Then(Write(PlayerInfo)).Then(Look(DatabaseInfo))
  }

  function OpenSong(): Code { Look(DatabaseInfo).Then(Write(FrameBuffer)) }

  // The song is opened once the queue is released, the sound device last.
  function ReleaseSong(): Code {
    Drop(SongQueue).Then(OpenSong())
    .Then(Drop(FrameBuffer)).Then(Drop(DatabaseInfo)).Then(Write(PlayerInfo)).Then(Drop(PlayerInfo))
  }

  function BeforeSong(reset: Code): Code {
    LockForNextSong().Then(Repeat(AwaitSong())).Then(TakeSong()).Then(ReleaseSong()).Then(reset)
  }

  // An end frame is fed back to the database; other frames reach the spectrum and the display.
  function PlayFrame(): Code {
    Done.Or(Touch(DatabaseInfo)).Or(Touch(SpectrumRing).Then(Touch(PlayerInfo)))
  }

  function InSong(): Code {
    Take(FrameBuffer).Then(Write(FrameBuffer))
    .Then(Sleep(FrameBuffer).Then(Drop(FrameBuffer)).Or(Drop(FrameBuffer).Then(PlayFrame())))
  }

  function AfterSong(): Code {
    Reading(DatabaseInfo, Touch(PastQueue)).Then(Touch(PlayerInfo))
  }

  // One turn: read any commands, then either sleep until there are more or play on.
  function PlayOn(reset: Code): Code {
    Drop(PlayerCommand).Then(BeforeSong(reset).Or(InSong()).Or(AfterSong()))
  }

  function PlayerTurn(reset: Code): Code {
    Take(PlayerCommand).Then(Look(PlayerCommand))
    .Then(Maybe(ReadCommands(reset)))
    .Then(Sleep(PlayerCommand).Then(Drop(PlayerCommand)).Or(PlayOn(reset)))
  }

  function Player(reset: Code): Code { Forever(PlayerTurn(reset)) }

  // input.c
  function RemovePlaylistEntry(): Code {
    Within(DatabaseInfo, Within(SongQueue, Write(SongQueue).Then(Write(DatabaseInfo))))
  }

  function SongRatingAdjust(): Code { Maybe(Touch(DatabaseInfo)) }

  function SetPlayerCommand(): Code { Touch(PlayerCommand) }

  function TogglePlayerCommand(): Code { Within(PlayerInfo, Look(PlayerInfo).Then(Touch(PlayerCommand))) }

  function AdjustVolume(): Code { Touch(PlayerInfo) }

  function SelectSong(): Code { Touch(SongQueue) }

  function CommonButtons(): Code {
    Done.Or(AdjustVolume()).Or(TogglePlayerCommand()).Or(SetPlayerCommand())
  }

  function ScreenButtons(): Code {
    CommonButtons().Or(SongRatingAdjust()).Or(SelectSong()).Or(RemovePlaylistEntry())
  }

  function HandleEvent(): Code {
    Maybe(StartSongPicker())
    .Then(Maybe(RemovePlaylistEntry()))
    .Then(CommonButtons())
    .Then(Maybe(SetExitStatus()))
    .Then(Maybe(StartSongPicker()))
    .Then(ScreenButtons())
  }

  function ProcessIrEvent(): Code { Within(DisplayInfo, Write(DisplayInfo).Then(HandleEvent())) }

  function IrMonitor(): Code { Forever(ProcessIrEvent()) }

  function FifoMonitor(): Code {
    Forever(SongRatingAdjust().Or(SetExitStatus()).Or(SetPlayerCommand()).Or(TogglePlayerCommand()))
  }

  // Code that leaves the locks as it found them.
  ghost predicate Balanced(order: Order, c: Code, h: Held) {
    Check(order, c, h) == Leaves(h)
  }

  lemma {:induction false} Balance(order: Order, a: Code, b: Code, h: Held)
    requires Balanced(order, a, h) && Balanced(order, b, h)
    ensures Balanced(order, a.Then(b), h) && Balanced(order, a.Or(b), h)
    ensures Balanced(order, Maybe(a), h) && Balanced(order, Repeat(a), h)
    ensures Check(order, Forever(a), h) == Leaves(Free)
  {
  }

  lemma DoneBalances(order: Order, h: Held)
    ensures Balanced(order, Done, h)
  {
  }

  lemma {:induction false} LockChecks(order: Order, l: Lock, h: Held)
    requires Above(order, l, h)
    ensures Check(order, Take(l), h) == Leaves(Holding(l, false, h))
    ensures Check(order, Read(l), h) == Leaves(Holding(l, true, h))
    ensures Check(order, Drop(l), Holding(l, false, h)) == Check(order, Drop(l), Holding(l, true, h)) == Leaves(h)
  {
  }

  lemma UseBalances(order: Order, l: Lock, writes: bool, h: Held)
    requires Guarded(h, l, writes)
    ensures Balanced(order, Use(l, writes), h)
  {
  }

  lemma WithinBalances(order: Order, l: Lock, body: Code, h: Held)
    requires Above(order, l, h)
    ensures Balanced(order, body, Holding(l, false, h)) ==> Balanced(order, Within(l, body), h)
    ensures Balanced(order, body, Holding(l, true, h)) ==> Balanced(order, Reading(l, body), h)
  {
    hide Check;
    var own, shared := Holding(l, false, h), Holding(l, true, h);
    LockChecks(order, l, h);
    if Balanced(order, body, own) {
      ThenChecks(order, Take(l), body, h, own);
      ThenChecks(order, Take(l).Then(body), Drop(l), h, own);
    }
    if Balanced(order, body, shared) {
      ThenChecks(order, Read(l), body, h, shared);
      ThenChecks(order, Read(l).Then(body), Drop(l), h, shared);
    }
  }

  lemma TouchBalances(order: Order, l: Lock, h: Held)
    requires Above(order, l, h)
    ensures Balanced(order, Touch(l), h)
  {
    hide Check;
    UseBalances(order, l, true, Holding(l, false, h));
    WithinBalances(order, l, Write(l), h);
  }

  lemma SleepBalances(order: Order, l: Lock)
    ensures Balanced(order, Sleep(l), Holding(l, false, Free))
  {
  }

  lemma PickerBalances(order: Order, h: Held)
    requires Above(order, DatabaseInfo, h)
    ensures Balanced(order, StartSongPicker(), h)
  {
    var inside := Holding(DatabaseInfo, false, h);
    UseBalances(order, DatabaseInfo, true, inside);
    assert Balanced(order, AddSong(), inside);
    hide Check, AddSong;
    var write := Write(DatabaseInfo);
    Balance(order, AddSong(), AddSong(), inside);
    Balance(order, write, Repeat(AddSong()), inside);
    Balance(order, write.Then(Repeat(AddSong())), write, inside);
    WithinBalances(order, DatabaseInfo, write.Then(Repeat(AddSong())).Then(write), h);
  }

  lemma ReadStateBalances(order: Order)
    ensures Balanced(order, ReadState(), Free)
  {
    hide Check, Touch, Within;
    var h := Holding(StateInfo, false, Free);
    UseBalances(order, StateInfo, true, h);
    TouchBalances(order, DisplayInfo, h);
    Balance(order, Write(StateInfo), Touch(DisplayInfo), h);
    WithinBalances(order, StateInfo, Write(StateInfo).Then(Touch(DisplayInfo)), Free);
  }

  lemma {:induction false} LoadOneSongBalances(order: Order)
    ensures Balanced(order, LoadOneSong(), Holding(StateInfo, false, Free))
  {
  }

  lemma LoadStateBalances(order: Order)
    ensures Balanced(order, LoadState(), Free)
  {
    hide Check, LoadOneSong, ReadState, Within;
    var h := Holding(StateInfo, false, Free);
    LoadOneSongBalances(order);
    ReadStateBalances(order);
    UseBalances(order, StateInfo, true, h);
    var queue := Repeat(LoadOneSong());
    Balance(order, LoadOneSong(), LoadOneSong(), h);
    Balance(order, queue, Write(StateInfo), h);
    WithinBalances(order, StateInfo, queue.Then(Write(StateInfo)), Free);
    Balance(order, ReadState(), Within(StateInfo, queue.Then(Write(StateInfo))), Free);
  }

  lemma LoadOneBalances(order: Order)
    ensures Balanced(order, LoadOne(), Holding(DatabaseInfo, true, Free))
  {
    var h := Holding(DatabaseInfo, true, Free);
    LockChecks(order, DatabaseInfo, Free);
    TouchBalances(order, DatabaseInfo, Free);
    UseBalances(order, DatabaseInfo, false, h);
    hide Check, Touch;
    ThenChecks(order, Drop(DatabaseInfo), Touch(DatabaseInfo), h, Free);
    var loaded := Drop(DatabaseInfo).Then(Touch(DatabaseInfo));
    ThenChecks(order, loaded, Read(DatabaseInfo), h, Free);
    ThenChecks(order, loaded.Then(Read(DatabaseInfo)), Look(DatabaseInfo), h, h);
  }

  lemma LoadMetaBalances(order: Order)
    ensures Balanced(order, LoadAllMetaData(), Free)
  {
    hide Check, LoadOne;
    var h := Holding(DatabaseInfo, true, Free);
    LoadOneBalances(order);
    UseBalances(order, DatabaseInfo, false, h);
    Balance(order, LoadOne(), LoadOne(), h);
    Balance(order, Look(DatabaseInfo), Repeat(LoadOne()), h);
    WithinBalances(order, DatabaseInfo, Look(DatabaseInfo).Then(Repeat(LoadOne())), Free);
  }

  lemma NamesBalance(order: Order)
    ensures Balanced(order, LoadNames(), Free)
  {
    hide Check, Touch, Within;
    var h := Holding(DisplayInfo, false, Free);
    UseBalances(order, DisplayInfo, true, h);
    TouchBalances(order, DatabaseInfo, h);
    Balance(order, Write(DisplayInfo), Touch(DatabaseInfo), h);
    WithinBalances(order, DisplayInfo, Write(DisplayInfo).Then(Touch(DatabaseInfo)), Free);
  }

  lemma SetupDatabaseBalances(order: Order)
    ensures Balanced(order, SetupDatabase(), Free)
  {
    hide Check, Balanced, Touch, LoadNames, LoadState, LoadAllMetaData, StartSongPicker;
    NamesBalance(order);
    LoadStateBalances(order);
    LoadMetaBalances(order);
    PickerBalances(order, Free);
    TouchBalances(order, SpectrumRing, Free);
    TouchBalances(order, PlayerCommand, Free);
    TouchBalances(order, SongQueue, Free);
    var c := LoadNames();
    Balance(order, c, Touch(SpectrumRing), Free);
    c := c.Then(Touch(SpectrumRing));
    Balance(order, c, Touch(PlayerCommand), Free);
    c := c.Then(Touch(PlayerCommand));
    Balance(order, c, LoadState(), Free);
    c := c.Then(LoadState());
    Balance(order, c, Touch(SongQueue), Free);
    c := c.Then(Touch(SongQueue));
    Balance(order, c, LoadAllMetaData(), Free);
    c := c.Then(LoadAllMetaData());
    Balance(order, c, StartSongPicker(), Free);
  }

  lemma {:induction false} SaveStateBalances(order: Order, h: Held)
    requires h == Holding(PlayerInfo, false, Holding(SongQueue, false, Holding(DatabaseInfo, true,
                    Holding(DisplayInfo, false, Holding(StateInfo, false, Free)))))
    ensures Balanced(order, SaveState(), h)
  {
  }

  lemma StateSaverBalances(order: Order)
    ensures Balanced(order, StateSaver(), Free)
  {
    hide Check, Within, Reading, SaveState;
    var a := Holding(StateInfo, false, Free);
    var b := Holding(DisplayInfo, false, a);
    var c := Holding(DatabaseInfo, true, b);
    var d := Holding(SongQueue, false, c);
    SaveStateBalances(order, Holding(PlayerInfo, false, d));
    var save := Within(PlayerInfo, SaveState());
    var songs := Within(SongQueue, save);
    WithinBalances(order, PlayerInfo, SaveState(), d);
    WithinBalances(order, SongQueue, save, c);
    WithinBalances(order, DatabaseInfo, songs, b);
    WithinBalances(order, DisplayInfo, Reading(DatabaseInfo, songs), a);
    var all := Within(StateInfo, Within(DisplayInfo, Reading(DatabaseInfo, songs)));
    WithinBalances(order, StateInfo, Within(DisplayInfo, Reading(DatabaseInfo, songs)), Free);
    Balance(order, all, all, Free);
  }

  lemma {:induction false} DrawBalances(order: Order, h: Held)
    requires h == Holding(PlayerInfo, false, Holding(PastQueue, false, Holding(SongQueue, false,
                    Holding(DatabaseInfo, true, Holding(DisplayInfo, false, Free)))))
    ensures Balanced(order, Draw(), h)
  {
  }

  lemma DrawListsBalance(order: Order, h: Held)
    requires h == Holding(DatabaseInfo, true, Holding(DisplayInfo, false, Free))
    ensures Balanced(order, DrawLists(), h)
  {
    var songs := Holding(SongQueue, false, h);
    var both := Holding(PastQueue, false, songs);
    assert Check(order, Take(SongQueue).Then(Take(PastQueue)), h) == Leaves(both);
    assert Check(order, Drop(SongQueue), both) == Leaves(Holding(PastQueue, false, h));
    assert Check(order, Drop(PastQueue), Holding(PastQueue, false, h)) == Leaves(h);
    hide Check, Within, Draw;
    DrawBalances(order, Holding(PlayerInfo, false, both));
    var draw := Within(PlayerInfo, Draw());
    WithinBalances(order, PlayerInfo, Draw(), both);
    var drawn := Take(SongQueue).Then(Take(PastQueue)).Then(draw);
    ThenChecks(order, Take(SongQueue).Then(Take(PastQueue)), draw, h, both);
    ThenChecks(order, drawn, Drop(SongQueue), h, both);
    ThenChecks(order, drawn.Then(Drop(SongQueue)), Drop(PastQueue), h, Holding(PastQueue, false, h));
  }

  lemma DisplayMonitorBalances(order: Order)
    ensures Balanced(order, DisplayMonitor(), Free)
  {
    var a := Holding(DisplayInfo, false, Free);
    DrawListsBalance(order, Holding(DatabaseInfo, true, a));
    hide Check, DrawLists, Reading, Within;
    SleepBalances(order, DisplayInfo);
    WithinBalances(order, DatabaseInfo, DrawLists(), a);
    var draw := Sleep(DisplayInfo).Then(Reading(DatabaseInfo, DrawLists()));
    Balance(order, Sleep(DisplayInfo), Reading(DatabaseInfo, DrawLists()), a);
    WithinBalances(order, DisplayInfo, draw, Free);
    Balance(order, Within(DisplayInfo, draw), Done, Free) by { DoneBalances(order, Free); }
  }

  lemma {:induction false} LetGoBalances(order: Order)
    ensures Balanced(order, LetGoAndSleep(), QueueLocks())
  {
  }

  // The locks held by the playlist manager while it adds a song.
  function QueueLocks(): Held {
    Holding(SongQueue, false, Holding(DatabaseInfo, false, Free))
  }

  lemma AddToQueueBalances(order: Order)
    ensures Balanced(order, AddToQueue(), QueueLocks())
  {
    var h := QueueLocks();
    LetGoBalances(order);
    UseBalances(order, SongQueue, false, h);
    UseBalances(order, SongQueue, true, h);
    UseBalances(order, DatabaseInfo, false, h);
    UseBalances(order, DatabaseInfo, true, h);
    hide Check, LetGoAndSleep, QueueLocks;
    var wait := Repeat(LetGoAndSleep());
    Balance(order, LetGoAndSleep(), LetGoAndSleep(), h);
    var c := Look(SongQueue);
    Balance(order, c, wait, h);
    c := c.Then(wait);
    Balance(order, c, Look(DatabaseInfo), h);
    c := c.Then(Look(DatabaseInfo));
    Balance(order, c, wait, h);
    c := c.Then(wait);
    Balance(order, c, Write(DatabaseInfo), h);
    c := c.Then(Write(DatabaseInfo));
    Balance(order, c, Write(SongQueue), h);
  }

  lemma AwaitBalances(order: Order, l: Lock, first: Code, h: Held)
    requires h == Holding(l, false, Free) && Balanced(order, first, h)
    ensures Balanced(order, Within(l, first.Then(Repeat(Sleep(l).Then(Look(l))))), Free)
  {
    SleepBalances(order, l);
    UseBalances(order, l, false, h);
    hide Check;
    Balance(order, Sleep(l), Look(l), h);
    var nap := Sleep(l).Then(Look(l));
    Balance(order, nap, nap, h);
    Balance(order, first, Repeat(nap), h);
    WithinBalances(order, l, first.Then(Repeat(nap)), Free);
  }

  lemma PlaylistManagerBalances(order: Order)
    ensures Balanced(order, PlaylistManager(), Free)
  {
    UseBalances(order, SongQueue, false, Holding(SongQueue, false, Free));
    AwaitBalances(order, SongQueue, Look(SongQueue), Holding(SongQueue, false, Free));
    AddToQueueBalances(order);
    hide Check, AddToQueue, Within;
    WithinBalances(order, SongQueue, AddToQueue(), Holding(DatabaseInfo, false, Free));
    var add := Within(DatabaseInfo, Within(SongQueue, AddToQueue()));
    WithinBalances(order, DatabaseInfo, Within(SongQueue, AddToQueue()), Free);
    Balance(order, add, add, Free);
    Balance(order, AwaitSize(), Forever(add), Free);
  }

  lemma FrameDecoderBalances(order: Order)
    ensures Balanced(order, FrameDecoder(), Free)
  {
    var h := Holding(FrameBuffer, false, Free);
    UseBalances(order, FrameBuffer, true, h);
    hide Check, Within;
    AwaitBalances(order, FrameBuffer, Write(FrameBuffer), h);
    var add := Within(FrameBuffer, AddFrame());
    Balance(order, add, add, Free);
  }

  lemma MainWaitBalances(order: Order)
    ensures Balanced(order, MainWait(), Free)
  {
    var h := Holding(StatusInfo, false, Free);
    SleepBalances(order, StatusInfo);
    UseBalances(order, StatusInfo, false, h);
    LockChecks(order, StatusInfo, Free);
    hide Check;
    var wait := Look(StatusInfo).Then(Sleep(StatusInfo));
    Balance(order, Look(StatusInfo), Sleep(StatusInfo), h);
    Balance(order, wait, wait, h);
    ThenChecks(order, Take(StatusInfo), Forever(wait), Free, h);
  }

  // The locks held by the player's command loop, and while it picks the next song.
  function CommandLocks(): Held {
    Holding(FrameBuffer, false, Holding(PlayerCommand, false, Holding(PlayerInfo, false,
      Holding(DatabaseInfo, false, Free))))
  }

  function NextSongLocks(): Held {
    Holding(FrameBuffer, false, Holding(PlayerInfo, false, Holding(SongQueue, false,
      Holding(DatabaseInfo, true, Free))))
  }

  // The spectrum reset fits where the player calls it.
  ghost predicate ResetFits(order: Order, reset: Code) {
    Balanced(order, reset, Free) && Balanced(order, reset, CommandLocks())
  }

  lemma {:induction false} EnterCommandsChecks(order: Order)
    ensures Check(order, EnterCommands(), Holding(PlayerCommand, false, Free)) == Leaves(CommandLocks())
  {
  }

  lemma {:induction false} LeaveCommandsChecks(order: Order)
    ensures Check(order, LeaveCommands(), CommandLocks()) == Leaves(Holding(PlayerCommand, false, Free))
  {
  }

  lemma {:induction false} ObeyingBalances(order: Order)
    ensures Balanced(order, Obeying(), CommandLocks())
  {
  }

  lemma ReadCommandsBalances(order: Order, reset: Code)
    requires ResetFits(order, reset)
    ensures Balanced(order, ReadCommands(reset), Holding(PlayerCommand, false, Free))
  {
    var h, locks := Holding(PlayerCommand, false, Free), CommandLocks();
    EnterCommandsChecks(order);
    LeaveCommandsChecks(order);
    ObeyingBalances(order);
    hide Check, EnterCommands, LeaveCommands, Obeying, Maybe, CommandLocks;
    Balance(order, reset, reset, locks);
    var obey := Obeying().Then(Maybe(reset));
    Balance(order, Obeying(), Maybe(reset), locks);
    Balance(order, obey, obey, locks);
    ThenChecks(order, EnterCommands(), Repeat(obey), h, locks);
    ThenChecks(order, EnterCommands().Then(Repeat(obey)), LeaveCommands(), h, locks);
  }

  lemma {:induction false} LockForNextSongChecks(order: Order)
    ensures Check(order, LockForNextSong(), Free) == Leaves(NextSongLocks())
  {
  }

  lemma {:induction false} WaitChecks(order: Order)
    ensures Check(order, Drop(FrameBuffer).Then(Drop(PlayerInfo)).Then(Drop(DatabaseInfo)).Then(Sleep(SongQueue))
                         .Then(Drop(SongQueue)), NextSongLocks()) == Leaves(Free)
  {
  }

  lemma AwaitSongBalances(order: Order)
    ensures Balanced(order, AwaitSong(), NextSongLocks())
  {
    hide LockForNextSong, Check;
    LockForNextSongChecks(order);
    WaitChecks(order);
    var wait := Drop(FrameBuffer).Then(Drop(PlayerInfo)).Then(Drop(DatabaseInfo))
      .Then(Sleep(SongQueue)).Then(Drop(SongQueue));
    ThenChecks(order, wait, LockForNextSong(), NextSongLocks(), Free);
  }

  lemma {:induction false} OpenSongBalances(order: Order, h: Held)
    requires h == Holding(FrameBuffer, false, Holding(PlayerInfo, false, Holding(DatabaseInfo, true, Free)))
    ensures Balanced(order, OpenSong(), h)
  {
  }

  lemma {:induction false} ReleaseSongChecks(order: Order)
    ensures Check(order, ReleaseSong(), NextSongLocks()) == Leaves(Free)
  {
    hide OpenSong;
    var h := Holding(FrameBuffer, false, Holding(PlayerInfo, false, Holding(DatabaseInfo, true, Free)));
    OpenSongBalances(order, h);
    assert Check(order, Drop(SongQueue).Then(OpenSong()), NextSongLocks()) == Leaves(h);
  }

  lemma {:induction false} TakeSongBalances(order: Order)
    ensures Balanced(order, TakeSong(), NextSongLocks())
  {
  }

  lemma BeforeSongBalances(order: Order, reset: Code)
    requires ResetFits(order, reset)
    ensures Balanced(order, BeforeSong(reset), Free)
  {
    var locks := NextSongLocks();
    LockForNextSongChecks(order);
    AwaitSongBalances(order);
    TakeSongBalances(order);
    ReleaseSongChecks(order);
    hide Check, LockForNextSong, AwaitSong, TakeSong, ReleaseSong, NextSongLocks;
    Balance(order, AwaitSong(), AwaitSong(), locks);
    var locked := LockForNextSong().Then(Repeat(AwaitSong()));
    ThenChecks(order, LockForNextSong(), Repeat(AwaitSong()), Free, locks);
    ThenChecks(order, locked, TakeSong(), Free, locks);
    ThenChecks(order, locked.Then(TakeSong()), ReleaseSong(), Free, locks);
    ThenChecks(order, locked.Then(TakeSong()).Then(ReleaseSong()), reset, Free, Free);
  }

  lemma PlayFrameBalances(order: Order)
    ensures Balanced(order, PlayFrame(), Free)
  {
    hide Check, Touch;
    TouchBalances(order, DatabaseInfo, Free);
    TouchBalances(order, SpectrumRing, Free);
    TouchBalances(order, PlayerInfo, Free);
    DoneBalances(order, Free);
    Balance(order, Done, Touch(DatabaseInfo), Free);
    Balance(order, Touch(SpectrumRing), Touch(PlayerInfo), Free);
    Balance(order, Done.Or(Touch(DatabaseInfo)), Touch(SpectrumRing).Then(Touch(PlayerInfo)), Free);
  }

  lemma InSongBalances(order: Order)
    ensures Balanced(order, InSong(), Free)
  {
    PlayFrameBalances(order);
    hide PlayFrame;
    var h := Holding(FrameBuffer, false, Free);
    var nap := Sleep(FrameBuffer).Then(Drop(FrameBuffer));
    var play := Drop(FrameBuffer).Then(PlayFrame());
    assert Check(order, nap, h) == Leaves(Free);
    assert Check(order, play, h) == Leaves(Free);
    assert Check(order, Take(FrameBuffer).Then(Write(FrameBuffer)), Free) == Leaves(h);
    hide Check;
    OrChecks(order, nap, play, h);
    ThenChecks(order, Take(FrameBuffer).Then(Write(FrameBuffer)), nap.Or(play), Free, h);
  }

  lemma AfterSongBalances(order: Order)
    ensures Balanced(order, AfterSong(), Free)
  {
    hide Check, Touch, Reading;
    TouchBalances(order, PastQueue, Holding(DatabaseInfo, true, Free));
    WithinBalances(order, DatabaseInfo, Touch(PastQueue), Free);
    TouchBalances(order, PlayerInfo, Free);
    Balance(order, Reading(DatabaseInfo, Touch(PastQueue)), Touch(PlayerInfo), Free);
  }

  lemma {:induction false} PlayOnChecks(order: Order, reset: Code)
    requires ResetFits(order, reset)
    ensures Check(order, PlayOn(reset), Holding(PlayerCommand, false, Free)) == Leaves(Free)
  {
    BeforeSongBalances(order, reset);
    InSongBalances(order);
    AfterSongBalances(order);
    assert Check(order, Drop(PlayerCommand), Holding(PlayerCommand, false, Free)) == Leaves(Free);
    hide Check, BeforeSong, InSong, AfterSong, ResetFits;
    Balance(order, BeforeSong(reset), InSong(), Free);
    Balance(order, BeforeSong(reset).Or(InSong()), AfterSong(), Free);
    ThenChecks(order, Drop(PlayerCommand), BeforeSong(reset).Or(InSong()).Or(AfterSong()),
               Holding(PlayerCommand, false, Free), Free);
  }

  lemma {:induction false} PlayerEnters(order: Order, h: Held)
    requires h == Holding(PlayerCommand, false, Free)
    ensures Check(order, Take(PlayerCommand).Then(Look(PlayerCommand)), Free) == Leaves(h)
    ensures Check(order, Sleep(PlayerCommand).Then(Drop(PlayerCommand)), h) == Leaves(Free)
  {
  }

  lemma PlayerBalances(order: Order, reset: Code)
    requires ResetFits(order, reset)
    ensures Balanced(order, Player(reset), Free)
  {
    hide Check, ReadCommands, PlayOn, ResetFits, Maybe;
    ReadCommandsBalances(order, reset);
    PlayOnChecks(order, reset);
    var h := Holding(PlayerCommand, false, Free);
    PlayerEnters(order, h);
    var nap := Sleep(PlayerCommand).Then(Drop(PlayerCommand));
    var enter := Take(PlayerCommand).Then(Look(PlayerCommand));
    Balance(order, ReadCommands(reset), ReadCommands(reset), h);
    ThenChecks(order, enter, Maybe(ReadCommands(reset)), Free, h);
    OrChecks(order, nap, PlayOn(reset), h);
    ThenChecks(order, enter.Then(Maybe(ReadCommands(reset))), nap.Or(PlayOn(reset)), Free, h);
    LoopChecks(order, PlayerTurn(reset), Free);
  }

  lemma RemoveBalances(order: Order, h: Held)
    requires Above(order, DatabaseInfo, h)
    ensures Balanced(order, RemovePlaylistEntry(), h)
  {
    var a := Holding(DatabaseInfo, false, h);
    var b := Holding(SongQueue, false, a);
    UseBalances(order, SongQueue, true, b);
    UseBalances(order, DatabaseInfo, true, b);
    hide Check, Within;
    var remove := Write(SongQueue).Then(Write(DatabaseInfo));
    Balance(order, Write(SongQueue), Write(DatabaseInfo), b);
    WithinBalances(order, SongQueue, remove, a);
    WithinBalances(order, DatabaseInfo, Within(SongQueue, remove), h);
  }

  lemma ToggleBalances(order: Order, h: Held)
    requires Above(order, PlayerInfo, h)
    ensures Balanced(order, TogglePlayerCommand(), h)
  {
    var inside := Holding(PlayerInfo, false, h);
    UseBalances(order, PlayerInfo, false, inside);
    TouchBalances(order, PlayerCommand, inside);
    hide Check, Touch;
    Balance(order, Look(PlayerInfo), Touch(PlayerCommand), inside);
    WithinBalances(order, PlayerInfo, Look(PlayerInfo).Then(Touch(PlayerCommand)), h);
  }

  lemma ButtonsBalance(order: Order, h: Held)
    requires Above(order, DatabaseInfo, h)
    ensures Balanced(order, CommonButtons(), h)
    ensures Balanced(order, ScreenButtons(), h)
  {
    hide Check, Balanced, RemovePlaylistEntry, TogglePlayerCommand, Touch, Maybe;
    RemoveBalances(order, h);
    ToggleBalances(order, h);
    DoneBalances(order, h);
    TouchBalances(order, PlayerInfo, h);
    TouchBalances(order, PlayerCommand, h);
    TouchBalances(order, SongQueue, h);
    TouchBalances(order, DatabaseInfo, h);
    Balance(order, Done, AdjustVolume(), h);
    Balance(order, Done.Or(AdjustVolume()), TogglePlayerCommand(), h);
    Balance(order, Done.Or(AdjustVolume()).Or(TogglePlayerCommand()), SetPlayerCommand(), h);
    Balance(order, Touch(DatabaseInfo), Done, h);
    Balance(order, CommonButtons(), SongRatingAdjust(), h);
    Balance(order, CommonButtons().Or(SongRatingAdjust()), SelectSong(), h);
    Balance(order, CommonButtons().Or(SongRatingAdjust()).Or(SelectSong()), RemovePlaylistEntry(), h);
  }

  lemma EventBalances(order: Order, h: Held)
    requires Above(order, DatabaseInfo, h)
    ensures Balanced(order, HandleEvent(), h)
  {
    hide Check, Balanced, StartSongPicker, RemovePlaylistEntry, CommonButtons, ScreenButtons, Touch, Maybe;
    PickerBalances(order, h);
    RemoveBalances(order, h);
    ButtonsBalance(order, h);
    TouchBalances(order, StatusInfo, h);
    Balance(order, StartSongPicker(), RemovePlaylistEntry(), h);
    Balance(order, RemovePlaylistEntry(), SetExitStatus(), h);
    Balance(order, SetExitStatus(), StartSongPicker(), h);
    var c := Maybe(StartSongPicker());
    Balance(order, c, Maybe(RemovePlaylistEntry()), h);
    c := c.Then(Maybe(RemovePlaylistEntry()));
    Balance(order, c, CommonButtons(), h);
    c := c.Then(CommonButtons());
    Balance(order, c, Maybe(SetExitStatus()), h);
    c := c.Then(Maybe(SetExitStatus()));
    Balance(order, c, Maybe(StartSongPicker()), h);
    c := c.Then(Maybe(StartSongPicker()));
    Balance(order, c, ScreenButtons(), h);
  }

  lemma IrMonitorBalances(order: Order)
    ensures Balanced(order, IrMonitor(), Free)
  {
    var h := Holding(DisplayInfo, false, Free);
    EventBalances(order, h);
    UseBalances(order, DisplayInfo, true, h);
    hide Check, HandleEvent, Within;
    Balance(order, Write(DisplayInfo), HandleEvent(), h);
    WithinBalances(order, DisplayInfo, Write(DisplayInfo).Then(HandleEvent()), Free);
    Balance(order, ProcessIrEvent(), ProcessIrEvent(), Free);
  }

  lemma FifoMonitorBalances(order: Order)
    ensures Balanced(order, FifoMonitor(), Free)
  {
    ToggleBalances(order, Free);
    DoneBalances(order, Free);
    TouchBalances(order, PlayerCommand, Free);
    TouchBalances(order, StatusInfo, Free);
    TouchBalances(order, DatabaseInfo, Free);
    hide Check, Balanced, TogglePlayerCommand, Touch, Maybe;
    Balance(order, Touch(DatabaseInfo), Done, Free);
    Balance(order, SongRatingAdjust(), SetExitStatus(), Free);
    Balance(order, SongRatingAdjust().Or(SetExitStatus()), SetPlayerCommand(), Free);
    var command := SongRatingAdjust().Or(SetExitStatus()).Or(SetPlayerCommand()).Or(TogglePlayerCommand());
    Balance(order, SongRatingAdjust().Or(SetExitStatus()).Or(SetPlayerCommand()), TogglePlayerCommand(), Free);
    Balance(order, command, command, Free);
  }

  // Every thread that main starts in the empeg build, and main itself.
  datatype Name = Main | Display | Database | Manager | Decoder | Playing | Fifo | Ir | Power | Saver

  function ThreadCode(t: Name): Code {
    match t
    case Main => MainWait()
    case Display => DisplayMonitor()
    case Database => SetupDatabase()
    case Manager => PlaylistManager()
    case Decoder => FrameDecoder()
    case Playing => Player(SpectrumReset())
    case Fifo => FifoMonitor()
    case Ir => IrMonitor()
    case Power => Maybe(SetExitStatus())
    case Saver => StateSaver()
  }

  lemma OthersBalance(order: Order, t: Name)
    requires t != Playing
    ensures Balanced(order, ThreadCode(t), Free)
  {
    hide Check, Balanced, Touch, Maybe, MainWait, DisplayMonitor, SetupDatabase, PlaylistManager,
         FrameDecoder, FifoMonitor, IrMonitor, StateSaver;
    match t
    case Main => MainWaitBalances(order);
    case Display => DisplayMonitorBalances(order);
    case Database => SetupDatabaseBalances(order);
    case Manager => PlaylistManagerBalances(order);
    case Decoder => FrameDecoderBalances(order);
    case Fifo => FifoMonitorBalances(order);
    case Ir => IrMonitorBalances(order);
    case Power =>
      TouchBalances(order, StatusInfo, Free);
      Balance(order, Touch(StatusInfo), Touch(StatusInfo), Free);
    case Saver => StateSaverBalances(order);
  }

  /** With the two spectrum locks swapped against the document, every thread of
      the empeg build takes its locks in order. */
  lemma EveryThreadKeepsOrder(t: Name)
    ensures Check(Kept, ThreadCode(t), Free) == Leaves(Free)
  {
    if t == Playing {
      ResetBalances(Free);
      ResetBalances(CommandLocks());
      hide Check, SpectrumReset, CommandLocks;
      PlayerBalances(Kept, SpectrumReset());
    } else {
      hide Check, ThreadCode;
      OthersBalance(Kept, t);
    }
  }

  lemma ResetBalances(h: Held)
    requires Above(Kept, SpectrumRing, h)
    ensures Balanced(Kept, SpectrumReset(), h)
  {
    var a := Holding(SpectrumRing, false, h);
    var b := Holding(SpectrumInfo, false, a);
    UseBalances(Kept, SpectrumRing, true, b);
    UseBalances(Kept, SpectrumInfo, true, b);
    hide Check, Within;
    var clear := Write(SpectrumRing).Then(Write(SpectrumInfo));
    Balance(Kept, Write(SpectrumRing), Write(SpectrumInfo), b);
    WithinBalances(Kept, SpectrumInfo, clear, a);
    WithinBalances(Kept, SpectrumRing, Within(SpectrumInfo, clear), h);
  }

  /** The document is kept by every thread except the player, and by the player
      apart from its spectrum resets: those break it whatever is held. */
  lemma {:induction false} OnlyTheResetBreaksTheDocument(t: Name, h: Held)
    ensures Check(Documented, ThreadCode(t), Free) == (if t == Playing then OutOfOrder else Leaves(Free))
    ensures Check(Documented, Player(Done), Free) == Leaves(Free)
    ensures Check(Documented, SpectrumReset(), h) == OutOfOrder
  {
    ResetBreaks(h);
    PlayerBreaks();
    assert ResetFits(Documented, Done);
    hide Check, SpectrumReset, Player, ResetFits;
    PlayerBalances(Documented, Done);
    if t != Playing {
      hide ThreadCode;
      OthersBalance(Documented, t);
    }
  }

  lemma {:induction false} ResetBreaks(h: Held)
    ensures Check(Documented, SpectrumReset(), h) == OutOfOrder
  {
  }

  lemma CommandsBreak()
    ensures Check(Documented, ReadCommands(SpectrumReset()), Holding(PlayerCommand, false, Free)) == OutOfOrder
  {
    EnterCommandsChecks(Documented);
    ObeyingBalances(Documented);
    ResetBreaks(CommandLocks());
    hide EnterCommands, LeaveCommands, Obeying, SpectrumReset, CommandLocks;
    var obey := Obeying().Then(Maybe(SpectrumReset()));
    ThenChecks(Documented, Obeying(), Maybe(SpectrumReset()), CommandLocks(), CommandLocks());
    assert Check(Documented, Repeat(obey), CommandLocks()) == OutOfOrder;
  }

  lemma PlayerBreaks()
    ensures Check(Documented, Player(SpectrumReset()), Free) == OutOfOrder
  {
    CommandsBreak();
    hide ReadCommands, PlayOn, SpectrumReset;
    var h := Holding(PlayerCommand, false, Free);
    var maybe := Maybe(ReadCommands(SpectrumReset()));
    var enter := Take(PlayerCommand).Then(Look(PlayerCommand));
    assert Check(Documented, maybe, h) == OutOfOrder;
    assert Check(Documented, enter, Free) == Leaves(h);
    ThenChecks(Documented, enter, maybe, Free, h);
  }
}
