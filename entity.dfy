/** The persisted records of domain/entity, as values. */
module Entity {
  import opened Strconv

  /** A time.Time instant, kept abstract: the core only copies timestamps. */
  datatype Time = Time(instant: int)

  /** The zero value time.Time{} of a record that has not been stored yet. */
  const ZeroTime: Time := Time(0)

  /** entity.Video */
  datatype Video = Video(id: Uint, url: string, sharedBy: string, description: string,
                         createdAt: Time, updatedAt: Time)

  /** entity.User */
  datatype User = User(id: Uint, name: string, email: string, createdAt: Time, updatedAt: Time)

  /**
    What a successful repository Add writes back into the record it was given:
    the generated primary key and the auto-create/auto-update timestamps.
  */
  datatype Stored = Stored(id: Uint, createdAt: Time, updatedAt: Time)

  /** The video record after a successful Add wrote `s` back into it. */
  function StoreVideo(v: Video, s: Stored): (r: Video)
    ensures Stored(r.id, r.createdAt, r.updatedAt) == s
    ensures r.(id := v.id, createdAt := v.createdAt, updatedAt := v.updatedAt) == v
  {
    v.(id := s.id, createdAt := s.createdAt, updatedAt := s.updatedAt)
  }
}
