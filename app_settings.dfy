/** The settings record the admin panel edits, and the built-in defaults. */
module AppSettings {
  import opened Optional
  import opened Types

  /** The five settings the admin panel receives and saves. The list of advertisements is
      optional because a cached or remote settings document may lack it. */
  datatype Settings = Settings(
    subscriptionMessage: string,
    subscriptionChannelLink: string,
    advertisements: Option<seq<Advertisement>>,
    adminUsername: string,
    adminPassword: string)

  /** The built-in settings: the subscription message, a placeholder channel link, one
      advertisement banner, and the credentials `admin` / `password123`. */
  function Defaults(): (r: Settings)
    ensures r.advertisements.Some? && |r.advertisements.value| == 1
    ensures r.adminUsername == "admin" && r.adminPassword == "password123"
  {
    Settings(DefaultMessage, DefaultChannelLink, Some([DefaultAd]), "admin", "password123")
  }

  const DefaultMessage: string :=
    "لإنشاء وصفات غير محدودة، يرجى الاشتراك في قناتنا أولاً! ستحصل على آخر التحديثات والوصفات المميزة."
  const DefaultChannelLink: string := "https://t.me/your_channel_link"
  const DefaultAd: Advertisement := Advertisement(
    "https://picsum.photos/800/250",
    "اكتشف عالماً من النكهات. انقر هنا لتصفح أحدث معدات المطبخ.",
    "#")
}
