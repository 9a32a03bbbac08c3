/**
 * The build-time edition switch: a premium build allows any number of habits
 * and monthly coins; a free build allows one habit and no monthly coins.
 */
module AppVersion {
  /** A habit limit; `Unbounded` is the premium edition's Infinity. */
  datatype Limit = Unbounded | AtMost(n: nat) {
    /** `count < limit`, the check before adding a habit. */
    predicate Allows(count: nat) {
      Unbounded? || count < n
    }
  }

  datatype Features = Features(maxHabits: Limit, monthlyCoinsEnabled: bool)

  datatype Config = Config(isPremium: bool, freeAppId: string, premiumAppId: string,
                           freeLimits: Features, premiumFeatures: Features)

  /** The configuration as shipped: a premium build. */
  const Shipped: Config := Config(
    true,
    "app.cleancoin.free",
    "app.cleancoin.premium",
    Features(AtMost(1), false),
    Features(Unbounded, true))

  function IsPremium(config: Config): bool {
    config.isPremium
  }

  /** The edition's feature set. */
  function ActiveFeatures(config: Config): (f: Features)
    ensures config.isPremium ==> f == config.premiumFeatures
    ensures !config.isPremium ==> f == config.freeLimits
  {
    if config.isPremium then config.premiumFeatures else config.freeLimits
  }

  function MaxHabits(config: Config): (limit: Limit)
    ensures limit == ActiveFeatures(config).maxHabits
  {
    if config.isPremium then config.premiumFeatures.maxHabits else config.freeLimits.maxHabits
  }

  function MonthlyCoinsEnabled(config: Config): (enabled: bool)
    ensures enabled == ActiveFeatures(config).monthlyCoinsEnabled
  {
    if config.isPremium then config.premiumFeatures.monthlyCoinsEnabled
    else config.freeLimits.monthlyCoinsEnabled
  }

  /** With the shipped limits, monthly coins are on exactly in the premium
      edition, and the free edition stops adding habits once one exists. */
  lemma EditionsDiffer(isPremium: bool)
    ensures var c := Shipped.(isPremium := isPremium);
      && (MonthlyCoinsEnabled(c) <==> IsPremium(c))
      && (IsPremium(c) ==> forall n: nat :: MaxHabits(c).Allows(n))
      && (!IsPremium(c) ==> forall n: nat :: MaxHabits(c).Allows(n) <==> n == 0)
  {
  }

  /** The shipped build is premium: monthly coins on, no habit limit. */
  lemma ShippedIsPremium()
    ensures IsPremium(Shipped) && MonthlyCoinsEnabled(Shipped) && MaxHabits(Shipped) == Unbounded
  {
  }
}
