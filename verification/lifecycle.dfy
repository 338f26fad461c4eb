/** The status a queued publication carries, shared by the database-backed queue of
    main.py and the in-memory queues of insta_bot.py. */
module Lifecycle {

  /** The four status strings the `publications` table uses: `queued`, `published`,
      `failed` and `cancelled`. Nothing in the modelled code writes `Cancelled`, but a
      stored row may hold it. */
  datatype Status = Queued | Published | Failed | Cancelled

  /** A publication is due when it is still queued and its time has come. */
  predicate Due(status: Status, publishTime: int, now: int)
  {
    status == Queued && publishTime <= now
  }
}
