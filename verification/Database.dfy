/** The tables of the partner database, which every repository of an instance writes through. */
module PartnerDatabase {
  import opened Domain
  import opened InboxTables
  import opened DeliveryProtocol

  datatype Tables = Tables(inbox: Inbox, permits: Permits, admissions: seq<Admission>, effects: Effects, orders: Orders)

  /** The tables in a state of the protocol. */
  function TablesOf(s: World): Tables {
    Tables(s.inbox, s.permits, s.admissions, s.effects, s.orders)
  }

  class Database {
    var inbox: Inbox
    var permits: Permits
    var admissions: seq<Admission>
    var effects: Effects
    var orders: Orders

    constructor ()
      ensures Content() == Tables(map[], map[], [], map[], map[])
    {
      inbox, permits, admissions, effects, orders := map[], map[], [], map[], map[];
    }

    ghost function Content(): Tables
      reads this
    {
      Tables(inbox, permits, admissions, effects, orders)
    }
  }
}
