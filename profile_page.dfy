/** The profile page: editing name and email, the role badge, and the experience counters. */
module ProfilePage {
  import opened Types

  /** The two editable fields. */
  datatype ProfileForm = ProfileForm(name: string, email: string)

  const SAVED_MESSAGE := "تغییرات با موفقیت ذخیره شد."

  /** `{...user, ...formData}`: the user with the form's name and email. */
  function ApplyEdits(user: User, form: ProfileForm): (r: User)
    ensures r.name == form.name && r.email == form.email
    ensures r.(name := user.name, email := user.email) == user
  {
    user.(name := form.name, email := form.email)
  }

  /** Saving twice saves nothing more, and only the last form counts. */
  lemma ApplyEditsLastWins(user: User, first: ProfileForm, second: ProfileForm)
    ensures ApplyEdits(ApplyEdits(user, first), second) == ApplyEdits(user, second)
    ensures ApplyEdits(ApplyEdits(user, second), second) == ApplyEdits(user, second)
  {
  }

  /** The role badge's label and colour classes. */
  datatype Badge = Badge(title: string, color: string)

  function RoleBadge(role: UserRole): Badge {
    match role
    case Citizen => Badge("شهروند", "bg-green-100 text-green-700")
    case Teacher => Badge("استاد", "bg-blue-100 text-blue-700")
    case Admin => Badge("مدیر سیستم", "bg-purple-100 text-purple-700")
  }

  /** Different roles get different badges. */
  lemma RoleBadgesDistinct(r1: UserRole, r2: UserRole)
    ensures RoleBadge(r1).title == RoleBadge(r2).title <==> r1 == r2
    ensures RoleBadge(r1).color == RoleBadge(r2).color <==> r1 == r2
  {
  }

  /** JavaScript's `%`, whose remainder takes the sign of the dividend. */
  function JsRem(a: int, b: int): (r: int)
    requires b > 0
    ensures a >= 0 ==> 0 <= r < b
    ensures a < 0 ==> -b < r <= 0
  {
    if a >= 0 then a % b else -((-a) % b)
  }

  /** "XP to the next level". */
  function XpToNextLevel(xp: int): int {
    1000 - JsRem(xp, 1000)
  }

  /** The width of the experience bar, in percent. */
  function XpBarWidth(xp: int): real {
    JsRem(xp, 1000) as real / 10.0
  }

  /** For a non-negative counter the figure lies in 1..1000 and lands exactly on the next multiple of 1000,
      the bar lies in [0, 100), and the two always agree: the bar's share plus the figure's share make one. */
  lemma XpCounters(xp: int)
    ensures xp >= 0 ==> 1 <= XpToNextLevel(xp) <= 1000 && (xp + XpToNextLevel(xp)) % 1000 == 0
    ensures xp >= 0 ==> 0.0 <= XpBarWidth(xp) < 100.0
    ensures XpBarWidth(xp) * 10.0 + XpToNextLevel(xp) as real == 1000.0
  {
    if xp >= 0 {
      assert xp + XpToNextLevel(xp) == xp / 1000 * 1000 + 1000;
    }
  }

  /** For a negative counter the figure exceeds 1000 (no clamping). */
  lemma NegativeXpOvershoots(xp: int)
    requires xp < 0 && xp % 1000 != 0
    ensures XpToNextLevel(xp) > 1000
  {
  }

  class ProfilePage {
    var user: User
    var form: ProfileForm
    var isEditing: bool
    var message: string

    /** The form starts from the user's current name and email. */
    constructor (user: User)
      ensures this.user == user && form == ProfileForm(user.name, user.email) && !isEditing && message == ""
    {
      this.user := user;
      form := ProfileForm(user.name, user.email);
      isEditing := false;
      message := "";
    }

    /** The edit button toggles the form; the fields keep what was typed. */
    method ToggleEditing()
      modifies this`isEditing
      ensures isEditing == !old(isEditing)
    {
      isEditing := !isEditing;
    }

    method EditForm(f: ProfileForm)
      modifies this`form
      ensures form == f
    {
      form := f;
    }

    /** `handleSave`: hands the edited user to `onUpdateUser`, closes the form and shows the confirmation. */
    method HandleSave() returns (updated: User)
      modifies this`user, this`isEditing, this`message
      ensures updated == ApplyEdits(old(user), form) && user == updated
      ensures updated.id == old(user).id && updated.role == old(user).role && updated.level == old(user).level &&
        updated.xp == old(user).xp && updated.scoreHistory == old(user).scoreHistory
      ensures !isEditing && message == SAVED_MESSAGE
    {
      updated := user.(name := form.name, email := form.email);
      user := updated;
      isEditing := false;
      message := SAVED_MESSAGE;
    }

    /** The three-second timer after saving clears the confirmation. */
    method ClearMessage()
      modifies this`message
      ensures message == ""
    {
      message := "";
    }
  }
}
