/**
 * Whole borrow lifecycles on one record: acquire a guard, move it through a
 * chain of `Map` and `FilterMap`, drop whatever guard is left. Each lifecycle
 * gives the borrow byte back exactly as it found it.
 */
module AccountScenarios {
  import opened Wrappers
  import opened SolanaTypes
  import opened BorrowState
  import opened Accounts

  /**
   * A live shared guard moved through `Map` with `f`, an accepting
   * `FilterMap` onto `v` and a declining `FilterMap`, then dropped: exactly
   * one reader leaves its nibble.
   */
  method MapFilterDrop<T, A, B>(guard: Ref<T>, f: T -> A, v: B)
    requires guard.state.Valid() && guard.Live()
    modifies guard.state
    ensures guard.state.Valid() && !guard.Live()
    ensures guard.state.borrowState == old(guard.state.borrowState) - Unit(guard.borrowShift)
    ensures guard.state.Readers(guard.borrowShift) == old(guard.state.Readers(guard.borrowShift)) - {guard}
    ensures guard.state.Readers(Other(guard.borrowShift)) == old(guard.state.Readers(Other(guard.borrowShift)))
    ensures guard.state.WritersUnchanged() && guard.state.HeaderUnchanged()
  {
    var mapped := guard.Map(f);
    var kept := mapped.FilterMap((_: A) => Some(v));
    var declined: Result<Ref<()>, Ref<B>> := kept.value.FilterMap(_ => None);
    declined.error.Drop();
  }

  /**
   * A live exclusive guard moved through `FilterMap` with `g`, then whichever
   * guard comes back is dropped: the write flag is cleared.
   */
  method FilterDropMut<T, A>(guard: RefMut<T>, g: T -> Option<A>)
    requires guard.state.Valid() && guard.Live()
    modifies guard.state
    ensures guard.state.Valid() && !guard.Live()
    ensures guard.state.borrowState == ClearFlag(old(guard.state.borrowState), guard.borrowMask)
    ensures guard.state.Writers(MaskShift(guard.borrowMask)) == {}
    ensures guard.state.Writers(Other(MaskShift(guard.borrowMask))) == old(guard.state.Writers(Other(MaskShift(guard.borrowMask))))
    ensures guard.state.ReadersUnchanged() && guard.state.HeaderUnchanged()
  {
    var kept := guard.FilterMap(g);
    if kept.Ok? {
      kept.value.Drop();
    } else {
      kept.error.Drop();
    }
  }

  /**
   * A shared lamports borrow moved through `Map` with `f`, an accepting
   * `FilterMap` onto `v` and a declining `FilterMap`, then dropped: the byte
   * is restored, and while the chain ran it held exactly one more lamports
   * reader.
   */
  method SharedLamportsChain<A, B>(view: AccountView, f: u64 -> A, v: B)
    returns (r: Result<(), ProgramError>, during: u8)
    requires view.raw.Valid()
    modifies view.raw
    ensures view.raw.Valid()
    ensures view.raw.borrowState == old(view.raw.borrowState)
    ensures view.raw.ReadersUnchanged() && view.raw.WritersUnchanged() && view.raw.HeaderUnchanged()
    ensures r.Ok? <==> old(view.CheckBorrowLamports()).Ok?
    ensures r.Err? ==> r.error == AccountBorrowFailed
    ensures r.Ok? ==> during == old(view.raw.borrowState) + Unit(LAMPORTS_SHIFT)
  {
    during := view.raw.borrowState;
    var acquired := view.TryBorrowLamports();
    if acquired.Err? {
      return Err(acquired.error), during;
    }
    during := view.raw.borrowState;
    MapFilterDrop(acquired.value, f, v);
    r := Ok(());
  }

  /** As `SharedLamportsChain`, for a shared data borrow. */
  method SharedDataChain<A, B>(view: AccountView, g: seq<u8> -> A, v: B)
    returns (r: Result<(), ProgramError>, during: u8)
    requires view.raw.Valid()
    modifies view.raw
    ensures view.raw.Valid()
    ensures view.raw.borrowState == old(view.raw.borrowState)
    ensures view.raw.ReadersUnchanged() && view.raw.WritersUnchanged() && view.raw.HeaderUnchanged()
    ensures r.Ok? <==> old(view.CheckBorrowData()).Ok?
    ensures r.Err? ==> r.error == AccountBorrowFailed
    ensures r.Ok? ==> during == old(view.raw.borrowState) + Unit(DATA_SHIFT)
  {
    during := view.raw.borrowState;
    var acquired := view.TryBorrowData();
    if acquired.Err? {
      return Err(acquired.error), during;
    }
    during := view.raw.borrowState;
    MapFilterDrop(acquired.value, g, v);
    r := Ok(());
  }

  /**
   * An exclusive lamports borrow moved through `Map`, then dropped: the byte
   * is restored, and while the guard was live only bit 7 was added.
   */
  method ExclusiveLamportsChain<A>(view: AccountView, f: u64 -> A)
    returns (r: Result<(), ProgramError>, during: u8)
    requires view.raw.Valid()
    modifies view.raw
    ensures view.raw.Valid()
    ensures view.raw.borrowState == old(view.raw.borrowState)
    ensures view.raw.ReadersUnchanged() && view.raw.WritersUnchanged() && view.raw.HeaderUnchanged()
    ensures r.Ok? <==> old(view.CheckBorrowMutLamports()).Ok?
    ensures r.Err? ==> r.error == AccountBorrowFailed
    ensures r.Ok? ==> during == SetFlag(old(view.raw.borrowState), LAMPORTS_SHIFT)
  {
    during := view.raw.borrowState;
    var acquired := view.TryBorrowMutLamports();
    if acquired.Err? {
      return Err(acquired.error), during;
    }
    during := view.raw.borrowState;
    var mapped := acquired.value.Map(f);
    mapped.Drop();
    r := Ok(());
  }

  /**
   * An exclusive data borrow moved through `FilterMap`, then dropped: the
   * byte is restored, and while the guard was live only bit 3 was added.
   */
  method ExclusiveDataChain<A>(view: AccountView, g: seq<u8> -> Option<A>)
    returns (r: Result<(), ProgramError>, during: u8)
    requires view.raw.Valid()
    modifies view.raw
    ensures view.raw.Valid()
    ensures view.raw.borrowState == old(view.raw.borrowState)
    ensures view.raw.ReadersUnchanged() && view.raw.WritersUnchanged() && view.raw.HeaderUnchanged()
    ensures r.Ok? <==> old(view.CheckBorrowMutData()).Ok?
    ensures r.Err? ==> r.error == AccountBorrowFailed
    ensures r.Ok? ==> during == SetFlag(old(view.raw.borrowState), DATA_SHIFT)
  {
    during := view.raw.borrowState;
    var acquired := view.TryBorrowMutData();
    if acquired.Err? {
      return Err(acquired.error), during;
    }
    during := view.raw.borrowState;
    FilterDropMut(acquired.value, g);
    r := Ok(());
  }

  /**
   * On a fresh record: three shared data borrows give `0x03`, an exclusive
   * data borrow is then refused, dropping one shared guard gives `0x02`, and
   * an exclusive lamports borrow on top of the two remaining readers gives
   * `0x82`.
   */
  method ThreeReadersThenWriter(view: AccountView)
    returns (afterReaders: u8, refused: bool, afterDrop: u8, afterWriter: u8)
    requires view.raw.Valid() && view.raw.borrowState == 0
    modifies view.raw
    ensures view.raw.Valid()
    ensures afterReaders == 0x03 && refused && afterDrop == 0x02 && afterWriter == 0x82
    ensures view.raw.borrowState == 0x82 && |view.raw.dataReaders| == 2 && |view.raw.lamportWriters| == 1
    ensures view.raw.HeaderUnchanged()
  {
    var first := view.TryBorrowData();
    var second := view.TryBorrowData();
    var third := view.TryBorrowData();
    afterReaders := view.raw.borrowState;
    var exclusive := view.TryBorrowMutData();
    refused := exclusive.Err?;
    first.value.Drop();
    afterDrop := view.raw.borrowState;
    var writer := view.TryBorrowMutLamports();
    afterWriter := view.raw.borrowState;
  }
}
