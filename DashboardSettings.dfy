/**
 * The settings view: four notification switches held in one record, a
 * single-select appearance mode, and save buttons that only show
 * notifications.
 */
module DashboardSettings {
  import opened Toasts
  import opened Selection

  /** The four notification switches, one per record field. */
  datatype Channel = Email | Push | Updates | Marketing

  /** The `notifications` record. */
  datatype NotificationPrefs = NotificationPrefs(email: bool, push: bool, updates: bool, marketing: bool)

  /** Email and push on, product updates and marketing off. */
  const InitialPrefs := NotificationPrefs(true, true, false, false)

  /** The settings sub-tabs in trigger order, the one open at first, and the one holding the appearance options. */
  const SubTabs: seq<string> := ["general", "notifications", "appearance", "security"]
  const InitialSubTab := "general"
  const AppearanceTab := "appearance"

  /** The appearance options in display order, and the one selected at first. */
  const AppearanceModes: seq<string> := ["light", "dark", "system"]
  const InitialAppearance := "system"

  const GeneralSavedMessage := "General settings updated successfully!"
  const NotificationsSavedMessage := "Notification settings updated successfully!"
  const AppearanceSavedMessage := "Appearance settings saved!"
  const PasswordUpdatedMessage := "Password updated successfully!"
  const TwoFactorMessage := "Two-factor authentication setup initiated"
  const DeletionMessage := "Account deletion initiated"

  /** The position of switch `ch` (its `checked` value). */
  function Get(p: NotificationPrefs, ch: Channel): bool {
    match ch
    case Email => p.email
    case Push => p.push
    case Updates => p.updates
    case Marketing => p.marketing
  }

  /** `{...notifications, field: checked}`: switch `ch` moves to `v` and no other switch moves. */
  function With(p: NotificationPrefs, ch: Channel, v: bool): (r: NotificationPrefs)
    ensures Get(r, ch) == v
    ensures forall c :: c != ch ==> Get(r, c) == Get(p, c)
  {
    match ch
    case Email => p.(email := v)
    case Push => p.(push := v)
    case Updates => p.(updates := v)
    case Marketing => p.(marketing := v)
  }

  /** A record is determined by its four switches. */
  lemma PrefsExtensional(p: NotificationPrefs, q: NotificationPrefs)
    requires forall c :: Get(p, c) == Get(q, c)
    ensures p == q
  {
    assert Get(p, Email) == Get(q, Email) && Get(p, Push) == Get(q, Push);
    assert Get(p, Updates) == Get(q, Updates) && Get(p, Marketing) == Get(q, Marketing);
  }

  /** The defaults: email and push on, updates and marketing off. */
  lemma InitialSwitches()
    ensures Get(InitialPrefs, Email) && Get(InitialPrefs, Push)
    ensures !Get(InitialPrefs, Updates) && !Get(InitialPrefs, Marketing)
  {
  }

  /** Flipping a switch to the value it already has changes nothing. */
  lemma WithCurrent(p: NotificationPrefs, ch: Channel)
    ensures With(p, ch, Get(p, ch)) == p
  {
    PrefsExtensional(With(p, ch, Get(p, ch)), p);
  }

  /** The later of two moves of the same switch wins; so moving it to one value twice is moving it once. */
  lemma WithOverwrites(p: NotificationPrefs, ch: Channel, a: bool, b: bool)
    ensures With(With(p, ch, a), ch, b) == With(p, ch, b)
    ensures With(With(p, ch, a), ch, a) == With(p, ch, a)
  {
    PrefsExtensional(With(With(p, ch, a), ch, b), With(p, ch, b));
    PrefsExtensional(With(With(p, ch, a), ch, a), With(p, ch, a));
  }

  /** Moves of two different switches can happen in either order. */
  lemma WithCommutes(p: NotificationPrefs, c1: Channel, c2: Channel, a: bool, b: bool)
    requires c1 != c2
    ensures With(With(p, c1, a), c2, b) == With(With(p, c2, b), c1, a)
  {
    PrefsExtensional(With(With(p, c1, a), c2, b), With(With(p, c2, b), c1, a));
  }

  /** Appearance option `mode` is highlighted. */
  predicate Highlighted(appearance: string, mode: string) {
    appearance == mode
  }

  /** Exactly one appearance option is highlighted while the mode is one of the three, none otherwise. */
  lemma ExactlyOneHighlighted(appearance: string)
    ensures Count(AppearanceModes, appearance) == if appearance in AppearanceModes then 1 else 0
    ensures (exists i :: 0 <= i < |AppearanceModes| && Highlighted(appearance, AppearanceModes[i])) <==> appearance in AppearanceModes
    ensures forall i, j ::
              (0 <= i < |AppearanceModes| && 0 <= j < |AppearanceModes| &&
               Highlighted(appearance, AppearanceModes[i]) && Highlighted(appearance, AppearanceModes[j])) ==> i == j
  {
    assert Distinct(AppearanceModes);
    CountDistinct(AppearanceModes, appearance);
    if appearance in AppearanceModes {
      var k :| 0 <= k < |AppearanceModes| && AppearanceModes[k] == appearance;
      assert Highlighted(appearance, AppearanceModes[k]);
    }
  }

  /** The view's state: the open sub-tab, the switches, the appearance mode and the notifications shown so far. */
  class SettingsPage {
    var subTab: string
    var notifications: NotificationPrefs
    var appearance: string
    var log: seq<Toast>

    /** The open sub-tab is one of the four and the appearance is one of the three options. */
    ghost predicate Valid()
      reads this
    {
      subTab in SubTabs && appearance in AppearanceModes
    }

    constructor ()
      ensures Valid()
      ensures subTab == InitialSubTab
      ensures notifications == InitialPrefs && appearance == InitialAppearance && log == []
    {
      subTab := InitialSubTab;
      notifications := InitialPrefs;
      appearance := InitialAppearance;
      log := [];
    }

    /** A click on sub-tab trigger `i`: its content is the one rendered. */
    method SelectSubTab(i: nat)
      requires Valid() && i < |SubTabs|
      modifies this`subTab
      ensures Valid()
      ensures subTab == SubTabs[i]
      ensures notifications == old(notifications) && appearance == old(appearance) && log == old(log)
    {
      subTab := SubTabs[i];
    }

    /** `onCheckedChange` of switch `ch`: only that field of the record changes. */
    method SwitchChanged(ch: Channel, checked: bool)
      requires Valid()
      modifies this`notifications
      ensures Valid()
      ensures notifications == With(old(notifications), ch, checked)
      ensures subTab == old(subTab) && appearance == old(appearance) && log == old(log)
    {
      notifications := With(notifications, ch, checked);
    }

    /** A click on appearance option `i`: it becomes the selected mode. */
    method SelectAppearance(i: nat)
      requires Valid() && i < |AppearanceModes|
      modifies this`appearance
      ensures Valid()
      ensures appearance == AppearanceModes[i]
      ensures subTab == old(subTab) && notifications == old(notifications) && log == old(log)
    {
      appearance := AppearanceModes[i];
    }

    /** A notification with the sub-tab, the switches and the mode left as they were. */
    method Notify(t: Toast)
      requires Valid()
      modifies this`log
      ensures Valid()
      ensures log == old(log) + [t]
      ensures subTab == old(subTab) && notifications == old(notifications) && appearance == old(appearance)
    {
      log := log + [t];
    }

    /** `handleSaveGeneral`. */
    method SaveGeneral()
      requires Valid()
      modifies this`log
      ensures Valid()
      ensures log == old(log) + [Toast(Success, GeneralSavedMessage)]
      ensures subTab == old(subTab) && notifications == old(notifications) && appearance == old(appearance)
    {
      Notify(Toast(Success, GeneralSavedMessage));
    }

    /** `handleSaveNotifications`: the switches are not reset or sent anywhere. */
    method SaveNotifications()
      requires Valid()
      modifies this`log
      ensures Valid()
      ensures log == old(log) + [Toast(Success, NotificationsSavedMessage)]
      ensures subTab == old(subTab) && notifications == old(notifications) && appearance == old(appearance)
    {
      Notify(Toast(Success, NotificationsSavedMessage));
    }

    /** The "Save Preferences" button of the appearance tab. */
    method SaveAppearance()
      requires Valid()
      modifies this`log
      ensures Valid()
      ensures log == old(log) + [Toast(Success, AppearanceSavedMessage)]
      ensures subTab == old(subTab) && notifications == old(notifications) && appearance == old(appearance)
    {
      Notify(Toast(Success, AppearanceSavedMessage));
    }

    /** The "Update Password" button. */
    method UpdatePassword()
      requires Valid()
      modifies this`log
      ensures Valid()
      ensures log == old(log) + [Toast(Success, PasswordUpdatedMessage)]
      ensures subTab == old(subTab) && notifications == old(notifications) && appearance == old(appearance)
    {
      Notify(Toast(Success, PasswordUpdatedMessage));
    }

    /** The "Enable 2FA" button. */
    method EnableTwoFactor()
      requires Valid()
      modifies this`log
      ensures Valid()
      ensures log == old(log) + [Toast(Info, TwoFactorMessage)]
      ensures subTab == old(subTab) && notifications == old(notifications) && appearance == old(appearance)
    {
      Notify(Toast(Info, TwoFactorMessage));
    }

    /** The "Delete Account" button: an error notification and nothing else. */
    method DeleteAccount()
      requires Valid()
      modifies this`log
      ensures Valid()
      ensures log == old(log) + [Toast(Error, DeletionMessage)]
      ensures subTab == old(subTab) && notifications == old(notifications) && appearance == old(appearance)
    {
      Notify(Toast(Error, DeletionMessage));
    }

    /**
     * The number of appearance options highlighted in the current state. The
     * options are rendered only while the Appearance sub-tab is open; then,
     * in every valid state, exactly one of them is highlighted.
     */
    function HighlightedOptions(): (n: nat)
      reads this
      ensures n == if subTab == AppearanceTab && appearance in AppearanceModes then 1 else 0
      ensures Valid() && subTab == AppearanceTab ==> n == 1
    {
      ExactlyOneHighlighted(appearance);
      if subTab == AppearanceTab then Count(AppearanceModes, appearance) else 0
    }
  }
}
