# ThemeMorphic front end: a Dafny model of its page state

ThemeMorphic's front end is a set of React screens. None of them talks to a
backend. Every action either changes a piece of local component state or
shows a transient notification (a "toast"). This project models that local
state and its event handlers, page by page, and proves what the pages promise
about it:

- **Theme builder wizard** (`ThemeBuilder.dfy`, `src/pages/ThemeBuilder.tsx`).
  - A step counter clamped to 1..3, moved by the Continue and Back buttons.
  - A `preview` key set by clicking one of six industry cards. The key is the
    card's name, lower-cased, with its first `" & "` and then its first `" "`
    replaced by `"-"`.
  - The live-preview caption, which is the key with its first `"-"` replaced by
    a space.
  - The progress circles, the step panels and the selection ring are rendered
    from these two fields.
- **Dashboard shell** (`Dashboard.dfy`, `src/pages/Dashboard.tsx`).
  - An `activeTab` string. It chooses which of the five sidebar items is
    highlighted and which view the main area renders.
  - A Log Out button that only notifies.
- **My Themes** (`DashboardThemes.dfy`, `src/components/dashboard/DashboardThemes.tsx`).
  - An ordered list of five seeded theme records.
  - Delete filters the list by id. Edit, preview and download only notify.
- **Settings** (`DashboardSettings.dfy`, `src/components/dashboard/DashboardSettings.tsx`).
  - The open sub-tab: General, Notifications, Appearance or Security.
  - Four notification switches held in one record.
  - An appearance mode chosen from light, dark and system.
  - Six buttons that only notify.
- **Profile** (`DashboardProfile.dfy`, `src/components/dashboard/DashboardProfile.tsx`).
  - One `isEditing` flag. It unlocks the ten form fields, shows the Save
    button and relabels the header button.

Each page whose handlers update state is a class. Its fields are the
component's `useState` variables, plus `log: seq<Toast>`, the notifications
shown so far in order. What a page renders is a set of predicates over those
fields. Three helper modules hold the shared pieces:

- `Text` models the JavaScript string behaviour the pages use:
  - `toLowerCase`;
  - `replace` with a string pattern, which rewrites only the first occurrence;
  - the search for the first occurrence that `replace` performs (`IndexOf`);
  - the decimal form of a number in a template literal.
- `Selection` counts how many list entries match the current state. "Exactly
  one item is highlighted" is then "its key occurs once".
- `Toasts` defines a notification as a (kind, message) pair.

## Model

| member | source | states |
|---|---|---|
| `ThemeBuilder.Advance` | src/pages/ThemeBuilder.tsx:15 | The next step never exceeds 3. It is the successor whenever that is at most 3, and otherwise 3. |
| `ThemeBuilder.Retreat` | src/pages/ThemeBuilder.tsx:16 | The previous step is never below 1. It is the predecessor whenever that is at least 1, and otherwise 1. |
| `ThemeBuilder.MovesStayInRange` | src/pages/ThemeBuilder.tsx:15-16 | From a step in 1..3 both moves stay in 1..3. Continue leaves the step unchanged iff the step is 3. Back leaves it unchanged iff the step is 1. |
| `ThemeBuilder.AdvanceRetreatInverse` | src/pages/ThemeBuilder.tsx:15-16 | Away from the clamps, Back undoes Continue and Continue undoes Back. |
| `ThemeBuilder.PanelShown` | src/pages/ThemeBuilder.tsx:48-154 | Panel n is rendered when the step equals n (`step === 1 &&`, `step === 2 &&`, `step === 3 &&`). |
| `ThemeBuilder.ExactlyOnePanel` | src/pages/ThemeBuilder.tsx:48-154 | Some panel renders iff the step is in 1..3, and no two panels render at once. The number of rendered panels is 1 for a step in range and 0 otherwise. |
| `ThemeBuilder.CircleFilled` | src/pages/ThemeBuilder.tsx:36 | Circle n has the gradient fill when the step is at least n. |
| `ThemeBuilder.CircleChecked` | src/pages/ThemeBuilder.tsx:38 | Circle n shows a check mark instead of its number when the step is greater than n. |
| `ThemeBuilder.CircleStates` | src/pages/ThemeBuilder.tsx:32-38 | A circle carries a check only when it is filled. The current step's circle is the only one filled without a check. Earlier circles are checked and later ones are plain. |
| `ThemeBuilder.Slug` | src/pages/ThemeBuilder.tsx:70 | A card's key: the name is lower-cased, then its first " & " becomes "-", then its first " " becomes "-". |
| `ThemeBuilder.RingShown` | src/pages/ThemeBuilder.tsx:72 | A card carries the ring when its key equals the preview. |
| `ThemeBuilder.SlugNoUpper` | src/pages/ThemeBuilder.tsx:70 | The key derived from any card name holds no upper-case letter. |
| `ThemeBuilder.CatalogSlugsOfIndustries` | src/pages/ThemeBuilder.tsx:67-72 | The six cards, in order, produce business, real-estate, education, tech-saas, portfolio and e-commerce. The six keys are pairwise distinct. |
| `ThemeBuilder.ExactlyOneRing` | src/pages/ThemeBuilder.tsx:71-73 | When the preview is one of the six keys, exactly one card carries the ring: the card whose key it is. Otherwise no card carries it. |
| `ThemeBuilder.PreviewLabel` | src/pages/ThemeBuilder.tsx:210 | The caption has as many characters as the key. |
| `ThemeBuilder.PreviewLabelFirstDash` | src/pages/ThemeBuilder.tsx:210 | At the first "-" of the key, the caption swaps that "-" for a space and keeps everything before and after it. |
| `ThemeBuilder.PreviewLabelNoDash` | src/pages/ThemeBuilder.tsx:210 | A key without "-" is shown as it is. |
| `ThemeBuilder.CatalogPreviewLabels` | src/pages/ThemeBuilder.tsx:210 | The six keys are captioned business, real estate, education, tech saas, portfolio and e commerce. |
| `ThemeBuilder.PreviewLabelDropsOneDash` | src/pages/ThemeBuilder.tsx:210 | A key containing a dash is captioned with exactly one dash fewer, so every later dash survives. A key without a dash is shown unchanged. |
| `ThemeBuilder.Wizard.constructor` | src/pages/ThemeBuilder.tsx:12-13 | The wizard opens at step 1 with preview "business", one of the six catalog keys. |
| `ThemeBuilder.Wizard.NextStep` | src/pages/ThemeBuilder.tsx:15 | The step becomes Advance of the old step and stays in 1..3. The preview is kept. |
| `ThemeBuilder.Wizard.PrevStep` | src/pages/ThemeBuilder.tsx:16 | The step becomes Retreat of the old step and stays in 1..3. The preview is kept. |
| `ThemeBuilder.Wizard.SelectIndustry` | src/pages/ThemeBuilder.tsx:70 | The preview becomes the card's key and the step is kept. A catalog card yields a catalog key. |
| `ThemeBuilder.Wizard.PanelsShown` | src/pages/ThemeBuilder.tsx:48-154 | In every valid state exactly one step panel is rendered. |
| `ThemeBuilder.Wizard.RingsShown` | src/pages/ThemeBuilder.tsx:48-89 | The industry cards sit inside the first panel. One card is ringed when the step is 1 and the preview is a catalog key. Otherwise no card is ringed, and at steps 2 and 3 no card is rendered at all. |
| `Text.IndexOf` | src/pages/ThemeBuilder.tsx:70 | The search `replace` performs: the index of the first occurrence of the pattern, or -1. |
| `Text.ReplaceFirst` | src/pages/ThemeBuilder.tsx:70 | `replace` with a string pattern: the text before the first occurrence, then the replacement, then the text after it; without an occurrence, the string itself. |
| `Text.IndexOfSpec` | src/pages/ThemeBuilder.tsx:70 | The search inside `replace` finds the first index at which the pattern occurs. It returns -1 exactly when the pattern occurs nowhere. |
| `Text.ReplaceFirstSpec` | src/pages/ThemeBuilder.tsx:70 | `replace` with a string pattern rewrites the first occurrence only, keeping the text around it. Without an occurrence the string is unchanged. |
| `Text.ReplaceFirstLength` | src/pages/ThemeBuilder.tsx:210 | After a replacement the length changes by the replacement's length minus the pattern's, and only when the pattern occurs. |
| `Text.ToLower` | src/pages/ThemeBuilder.tsx:70 | Lower-casing keeps the length and maps every character through LowerChar. |
| `Text.LowerChar` | src/pages/ThemeBuilder.tsx:70 | The result is never an upper-case letter. Letters A-Z map to a-z and every other character is kept. |
| `Text.ToLowerIdempotent` | src/pages/ThemeBuilder.tsx:70 | Lower-casing twice is lower-casing once. |
| `Text.NatToString` | src/components/dashboard/DashboardThemes.tsx:23-33 | The decimal form of a natural number is nonempty, all digits, a single digit exactly below 10, and ends in the last digit of the number. |
| `Text.IntToString` | src/components/dashboard/DashboardThemes.tsx:23-33 | The decimal form of an integer starts with "-" exactly when the integer is negative. |
| `Text.NatToStringInjective` | src/components/dashboard/DashboardThemes.tsx:23-33 | Distinct natural numbers have distinct decimal forms. |
| `Text.IntToStringInjective` | src/components/dashboard/DashboardThemes.tsx:23-33 | Distinct integers have distinct decimal forms. |
| `Selection.CountAppend` | src/pages/ThemeBuilder.tsx:210 | Counting over a concatenation adds the counts of its parts; used to count the dashes of a caption. |
| `Selection.CountDistinct` | src/pages/Dashboard.tsx:122-130 | In a list without repeats, a present key matches exactly once and an absent key never. |
| `DashboardThemes.SeedIds` | src/components/dashboard/DashboardThemes.tsx:10-16 | The seed list has five records with ids 1 to 5 in order, and no id repeats. |
| `DashboardThemes.RemoveId` | src/components/dashboard/DashboardThemes.tsx:18-21 | The filtered list is never longer than the list. |
| `DashboardThemes.RemoveIdMembers` | src/components/dashboard/DashboardThemes.tsx:18-21 | A record is in the filtered list iff it was in the list and its id differs from the deleted id. |
| `DashboardThemes.RemoveIdLength` | src/components/dashboard/DashboardThemes.tsx:18-21 | The list shrinks by exactly the number of records that carry the id. |
| `DashboardThemes.RemoveIdAppend` | src/components/dashboard/DashboardThemes.tsx:18-21 | Filtering a concatenation filters each part, so the kept records stay in their order. |
| `DashboardThemes.RemoveIdOfPrefix` | src/components/dashboard/DashboardThemes.tsx:18-21 | Filtering any prefix of the list gives a prefix of the filtered list. |
| `DashboardThemes.RemoveIdAbsent` | src/components/dashboard/DashboardThemes.tsx:18-21 | Deleting an id no record carries leaves the list unchanged. |
| `DashboardThemes.RemoveIdIdempotent` | src/components/dashboard/DashboardThemes.tsx:18-21 | Deleting the same id twice is deleting it once. |
| `DashboardThemes.RemoveIdCommutes` | src/components/dashboard/DashboardThemes.tsx:18-21 | Deleting two ids gives the same list in either order. |
| `DashboardThemes.RemoveIdKeepsUnique` | src/components/dashboard/DashboardThemes.tsx:18-21 | Deleting keeps the ids of the list unique. |
| `DashboardThemes.RemovePresentShrinksByOne` | src/components/dashboard/DashboardThemes.tsx:18-21 | With unique ids, deleting a present id removes exactly one record. |
| `DashboardThemes.DeleteThreeFromSeed` | src/components/dashboard/DashboardThemes.tsx:10-21 | Deleting theme 3 from the seed list leaves themes 1, 2, 4 and 5, in that order. |
| `DashboardThemes.ActionMessage` | src/components/dashboard/DashboardThemes.tsx:23-33 | The edit, preview and download notification: the action's text followed by the decimal form of the id (`${id}` on lines 24, 28 and 32). |
| `DashboardThemes.ActionMessageNamesId` | src/components/dashboard/DashboardThemes.tsx:23-33 | An edit, preview or download notification names exactly one theme id. |
| `DashboardThemes.ThemeList.constructor` | src/components/dashboard/DashboardThemes.tsx:10-16 | The list starts as the seed list, with no notifications yet. |
| `DashboardThemes.ThemeList.DeleteTheme` | src/components/dashboard/DashboardThemes.tsx:18-21 | The list becomes the filtered list and no record with that id remains. A present id costs exactly one record. Ids stay unique. The success notification is appended whether or not the id was present. |
| `DashboardThemes.ThemeList.EditTheme` | src/components/dashboard/DashboardThemes.tsx:23-25 | The list is kept. "Editing theme " followed by the id is appended. |
| `DashboardThemes.ThemeList.PreviewTheme` | src/components/dashboard/DashboardThemes.tsx:27-29 | The list is kept. "Previewing theme " followed by the id is appended. |
| `DashboardThemes.ThemeList.DownloadTheme` | src/components/dashboard/DashboardThemes.tsx:31-33 | The list is kept. "Downloading theme " followed by the id is appended. |
| `Dashboard.NavigatedMessage` | src/pages/Dashboard.tsx:23 | The navigation notification ends with the item's label. |
| `Dashboard.ItemActive` | src/pages/Dashboard.tsx:42-74 | Sidebar item i is highlighted when the tab equals its key (`active={activeTab === key}`). |
| `Dashboard.RenderedViews` | src/pages/Dashboard.tsx:110-114 | The main area: for each of the five keys in order, that key's view when the tab equals it. |
| `Dashboard.TabKeysDistinct` | src/pages/Dashboard.tsx:39-78 | There are five sidebar items with pairwise distinct keys and distinct views. |
| `Dashboard.ExactlyOneActive` | src/pages/Dashboard.tsx:42-74 | Some item is highlighted iff the tab is one of the five keys, and no two items are highlighted at once. The count is 1 for a known tab and 0 otherwise. |
| `Dashboard.ViewOfItem` | src/pages/Dashboard.tsx:110-114 | The tab of item i renders exactly that item's view and no other. |
| `Dashboard.NoViewOfUnknownTab` | src/pages/Dashboard.tsx:110-114 | A tab that matches no key renders no view. |
| `Dashboard.ActiveItemMatchesView` | src/pages/Dashboard.tsx:42-114 | As many views render as items are highlighted. An item is highlighted iff its view renders. |
| `Dashboard.DashboardPage.constructor` | src/pages/Dashboard.tsx:18 | The tab starts as "dashboard", with no notifications yet. |
| `Dashboard.DashboardPage.HandleNavigation` | src/pages/Dashboard.tsx:20-24 | The tab becomes the path. "Navigated to " followed by the label is appended as a success notification. The state stays valid iff the path is one of the five keys. |
| `Dashboard.DashboardPage.ClickNavItem` | src/pages/Dashboard.tsx:39-78 | A click on item i selects its key, so that item's view is the only one rendered, and announces its label. |
| `Dashboard.DashboardPage.LogOut` | src/pages/Dashboard.tsx:85 | The tab is kept, so a valid state stays valid, and an info notification "Logged out successfully!" is appended. |
| `Dashboard.DashboardPage.ActiveItems` | src/pages/Dashboard.tsx:122-130 | The number of highlighted items is one for a known tab and zero otherwise, so one in every valid state. It equals the number of rendered views. |
| `DashboardSettings.Get` | src/components/dashboard/DashboardSettings.tsx:100-136 | The `checked` value a switch shows: the record field of its channel. |
| `DashboardSettings.With` | src/components/dashboard/DashboardSettings.tsx:101-137 | The chosen switch takes the new value and every other switch keeps its value. |
| `DashboardSettings.InitialSwitches` | src/components/dashboard/DashboardSettings.tsx:12-17 | By default email and push are on, and updates and marketing are off. |
| `DashboardSettings.WithCurrent` | src/components/dashboard/DashboardSettings.tsx:101-137 | Setting a switch to its current value changes nothing. |
| `DashboardSettings.WithOverwrites` | src/components/dashboard/DashboardSettings.tsx:101-137 | The later of two changes to one switch wins. Setting the same value twice is setting it once. |
| `DashboardSettings.WithCommutes` | src/components/dashboard/DashboardSettings.tsx:101-137 | Changes to two different switches can happen in either order. |
| `DashboardSettings.Highlighted` | src/components/dashboard/DashboardSettings.tsx:164 | An appearance option is highlighted when the mode equals it. |
| `DashboardSettings.ExactlyOneHighlighted` | src/components/dashboard/DashboardSettings.tsx:160-164 | Some option is highlighted iff the mode is light, dark or system, and no two options are highlighted at once. The count is 1 for a known mode and 0 otherwise. |
| `DashboardSettings.SettingsPage.constructor` | src/components/dashboard/DashboardSettings.tsx:11-35 | The General sub-tab is open, the switches start at their defaults and the mode starts as "system", with no notifications. |
| `DashboardSettings.SettingsPage.SelectSubTab` | src/components/dashboard/DashboardSettings.tsx:35-41 | A click on a sub-tab trigger opens that sub-tab. The switches, the mode and the notifications are kept. |
| `DashboardSettings.SettingsPage.SwitchChanged` | src/components/dashboard/DashboardSettings.tsx:101-137 | Only the toggled field of the record changes. The sub-tab, the mode and the notifications are kept. |
| `DashboardSettings.SettingsPage.SelectAppearance` | src/components/dashboard/DashboardSettings.tsx:160-168 | The clicked option becomes the mode. The sub-tab, the switches and the notifications are kept. |
| `DashboardSettings.SettingsPage.Notify` | src/components/dashboard/DashboardSettings.tsx:21-241 | Showing a toast appends it to the log and leaves the sub-tab, the switches and the mode unchanged; every save and security button goes through it. |
| `DashboardSettings.SettingsPage.SaveGeneral` | src/components/dashboard/DashboardSettings.tsx:21-24 | Only a success notification for the general settings is appended. |
| `DashboardSettings.SettingsPage.SaveNotifications` | src/components/dashboard/DashboardSettings.tsx:26-29 | Only a success notification for the notification settings is appended. The switches are kept. |
| `DashboardSettings.SettingsPage.SaveAppearance` | src/components/dashboard/DashboardSettings.tsx:181 | Only the success notification "Appearance settings saved!" is appended. |
| `DashboardSettings.SettingsPage.UpdatePassword` | src/components/dashboard/DashboardSettings.tsx:215 | Only the success notification "Password updated successfully!" is appended. |
| `DashboardSettings.SettingsPage.EnableTwoFactor` | src/components/dashboard/DashboardSettings.tsx:228 | Only an info notification about two-factor setup is appended. |
| `DashboardSettings.SettingsPage.DeleteAccount` | src/components/dashboard/DashboardSettings.tsx:241 | Only the error notification "Account deletion initiated" is appended. |
| `DashboardSettings.SettingsPage.HighlightedOptions` | src/components/dashboard/DashboardSettings.tsx:150-164 | The options are rendered only under the Appearance sub-tab. The number of highlighted options is one there for a known mode, so one in every valid state with that sub-tab open, and zero otherwise. |
| `DashboardProfile.InputDisabled` | src/components/dashboard/DashboardProfile.tsx:77-181 | Each of the ten fields is disabled when the view is not editing (`disabled={!isEditing}`). |
| `DashboardProfile.SaveButtonShown` | src/components/dashboard/DashboardProfile.tsx:130-137 | The Save Changes button is rendered only while editing. |
| `DashboardProfile.HeaderLabel` | src/components/dashboard/DashboardProfile.tsx:28 | The header button reads "Cancel" or "Edit Profile". |
| `DashboardProfile.ModeIsConsistent` | src/components/dashboard/DashboardProfile.tsx:28-181 | All ten fields are enabled iff the Save button shows iff the header reads "Cancel". |
| `DashboardProfile.ProfilePage.constructor` | src/components/dashboard/DashboardProfile.tsx:11 | The view opens read-only: no Save button, and the header reads "Edit Profile". |
| `DashboardProfile.ProfilePage.ToggleEditing` | src/components/dashboard/DashboardProfile.tsx:25 | The header button flips the mode and shows no notification. |
| `DashboardProfile.ProfilePage.SaveProfile` | src/components/dashboard/DashboardProfile.tsx:13-17 | "Profile updated successfully!" is appended and the view becomes read-only. |
| `DashboardProfile.ToggleTwice` | src/components/dashboard/DashboardProfile.tsx:25 | Two clicks on the header button restore the mode. |
| `DashboardProfile.EditThenSave` | src/components/dashboard/DashboardProfile.tsx:13-28 | Editing and then saving ends read-only, with one notification more. |

## Left out

- Rendering, styling, icons and layout.
  - Only the predicates that decide what is shown are modelled: panel, circle,
    ring, highlight, rendered view, disabled field and Save button.
- The notification library.
  - Each toast is an entry appended to the page's `log`.
  - Display time, stacking and dismissal are not modelled.
  - Every page object keeps its own log. In the application all toasts go to
    one stream, so the logs of the pages interleave there in event order.
- Routing and links.
  - `useNavigate` and `Link` are not part of this model.
  - Navigation is only the change of `activeTab` plus its notification.
- The wizard's other controls carry no state.
  - The design-style cards (`src/pages/ThemeBuilder.tsx:52-62`), the feature
    cards (line 109) and the color swatches (line 125) have no click handler.
  - The theme-name input, the header and footer selects and the notes
    textarea (lines 160-186) are uncontrolled.
  - The Preview Theme and Proceed to Download buttons (lines 197-199) have no
    handler.
  - The page never calls `toast`.
  - `preview` changes only on an industry click (line 70), never on a step
    change.
  - Continue (lines 84 and 146) advances without checking any selection, and
    no button of the page submits anything.
- The values of the uncontrolled controls of the settings and profile forms.
  - This covers the text inputs with `defaultValue`, the general sub-tab's
    timezone `<select>` (`DashboardSettings.tsx:63`) and its auto-save
    `Switch defaultChecked` (line 73).
  - `e.preventDefault()` in the form handlers is not modelled; it has no
    effect on the state.
- `src/components/dashboard/DashboardHome.tsx`,
  `src/components/dashboard/DashboardBilling.tsx` and
  `src/components/layout/Navbar.tsx` are not part of this model.
  - They hold no handler that changes modelled state.
- Remounting of the dashboard views.
  - `src/pages/Dashboard.tsx:110-114` mounts each view only while its tab is
    active.
  - Leaving a tab and returning re-runs the view's `useState` initialisers:
    deleted themes come back, the switches and the mode return to their
    defaults, and `isEditing` returns to false.
  - The model keeps one object per view, so a view's state in the model
    restarts only when its constructor is called again.
- React's batching and stale closures.
  - The settings switches spread the `notifications` value captured at
    render time.
  - The model applies each event to the current state, as one event per
    render would.
- `Text.LowerChar`: models `toLowerCase` for ASCII letters only. Every card
  name is ASCII, so the catalog keys are unaffected.
- `Text.ToLower`: keeps the length, which JavaScript's `toLowerCase` does not
  for some non-ASCII input ("İ" becomes two code units). This holds only for
  the ASCII case that LowerChar covers.
- `DashboardSettings.SettingsPage.HighlightedOptions`: only this count depends
  on the open sub-tab. `DashboardSettings.Get` gives the position of a switch
  whether or not the Notifications sub-tab, where the switches are rendered, is
  open.
- `Text.IntToString`: renders integers only.
  - Theme ids are integers, so JavaScript's number formatting for fractions,
    exponents, NaN and infinities is out of scope.
- `Text.ReplaceFirst`: inserts the replacement literally.
  - JavaScript expands `$&`, `$$`, `` $` `` and `$'` in a replacement string,
    and this model does not.
  - Every call in the source replaces with "-" or " ", which hold no `$`.
- `DashboardThemes.RemoveId`: its own contract states only that the list does
  not grow.
  - What is kept, in what order, and by how much the list shrinks is stated in
    RemoveIdMembers, RemoveIdAppend and RemoveIdLength.
- `DashboardSettings.SettingsPage.SelectAppearance`: takes the index of the
  clicked option rather than its string, because clicks only come from the
  three rendered options.
