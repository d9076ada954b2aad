/** The relational store behind the developer portal: one table per record
    type, each a sequence of rows in insertion order. Identifiers and
    timestamps that the store generates are passed in by the caller. */
module Store {
  import opened Wrappers
  import opened Json

  datatype User = User(id: string, username: string, passwordHash: string, role: string)

  /** Content rows carry the times they were created and last changed. */
  datatype Site = Site(
    id: string, name: string, url: string, description: Option<string>,
    siteType: string, createdBy: string, createdAt: int, updatedAt: int)

  /** An audit-log row; `changes` holds the submitted fields as received. */
  datatype AuditEntry = AuditEntry(userId: string, action: string, siteId: string, changes: map<string, Json>)

  datatype DockItem = DockItem(
    id: string, title: string, icon: string, href: string,
    order: int, isActive: bool, createdBy: string, createdAt: int, updatedAt: int)

  datatype App = App(
    id: string, name: string, icon: string, url: string, color: string,
    description: Option<string>, order: int, isActive: bool, createdBy: string, createdAt: int,
    updatedAt: int)

  /** One logged search; `createdAt` is a day number. */
  datatype SearchEvent = SearchEvent(
    query: string, resultsCount: int, userIp: Option<string>, userAgent: Option<string>, createdAt: int)

  class Database {
    var users: seq<User>
    var sites: seq<Site>
    var auditLog: seq<AuditEntry>
    var dockItems: seq<DockItem>
    var apps: seq<App>
    var searchEvents: seq<SearchEvent>

    constructor ()
      ensures users == [] && sites == [] && auditLog == [] && dockItems == [] && apps == [] && searchEvents == []
    {
      users, sites, auditLog, dockItems, apps, searchEvents := [], [], [], [], [], [];
    }
  }
}
