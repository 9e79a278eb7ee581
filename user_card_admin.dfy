/** The decisions of `src/pages/AdminPage/UserCardAdmin.jsx`: the role badge
    a user card shows and which actions it offers. */
module UserCardAdmin {
  import opened Common
  import opened Records

  /** The four badges of `getRoleInfo`; each stands for its translation key. */
  datatype RoleBadge = DependentBadge | AdminBadge | MedicalCenterBadge | UserBadge

  /** The translation key of a badge. */
  function LabelKey(b: RoleBadge): string
  {
    match b
    case DependentBadge => "role_dependent_user"
    case AdminBadge => "role_admin"
    case MedicalCenterBadge => "role_medical_center"
    case UserBadge => "role_user"
  }

  /** `getRoleInfo(role, isConvertedDependent)`. */
  function RoleInfo(role: Option<string>, isConvertedDependent: bool): (b: RoleBadge)
    ensures b == DependentBadge <==> isConvertedDependent
    ensures b == AdminBadge <==> !isConvertedDependent && role == Some(ROLE_ADMIN)
    ensures b == MedicalCenterBadge <==> !isConvertedDependent && role == Some(ROLE_MEDICAL_CENTER)
    ensures b == UserBadge <==>
      !isConvertedDependent && role != Some(ROLE_ADMIN) && role != Some(ROLE_MEDICAL_CENTER)
  {
    if isConvertedDependent then DependentBadge
    else if role == Some(ROLE_ADMIN) then AdminBadge
    else if role == Some(ROLE_MEDICAL_CENTER) then MedicalCenterBadge
    else UserBadge
  }

  /** The add-vaccine and certificate buttons. */
  predicate ShowsVaccineActions(u: User)
  {
    u.role == Some(ROLE_USER)
  }

  /** The delete button: every account except the seeded administrator. */
  predicate ShowsDelete(u: User)
  {
    u.id != "admin-0"
  }

  /** The card's buttons, in the order they are rendered. */
  datatype CardAction = EditAction | AddVaccineAction | CertificateAction | DeleteAction

  /** Edit is always offered; adding a vaccine and the certificate come as a
      pair, for `user` accounts only; delete is offered for every account
      but the seeded administrator. */
  function CardActions(u: User): (a: seq<CardAction>)
    ensures |a| >= 1 && a[0] == EditAction && EditAction !in a[1..]
    ensures AddVaccineAction in a <==> ShowsVaccineActions(u)
    ensures CertificateAction in a <==> AddVaccineAction in a
    ensures DeleteAction in a <==> ShowsDelete(u)
    ensures DeleteAction in a ==> a[|a| - 1] == DeleteAction
    ensures |a| == 1 + (if ShowsVaccineActions(u) then 2 else 0) + (if ShowsDelete(u) then 1 else 0)
  {
    [EditAction]
    + (if ShowsVaccineActions(u) then [AddVaccineAction, CertificateAction] else [])
    + (if ShowsDelete(u) then [DeleteAction] else [])
  }

  /** A card whose badge reads "user" need not offer the vaccine actions: a
      converted dependent with role `user` shows the dependent badge but
      still offers them, and a record with no role shows the user badge but
      offers none. */
  lemma BadgeAndActionsDiffer(u: User)
    ensures u.isConvertedDependent && u.role == Some(ROLE_USER) ==>
      RoleInfo(u.role, u.isConvertedDependent) == DependentBadge && ShowsVaccineActions(u)
    ensures u.role.None? && !u.isConvertedDependent ==>
      RoleInfo(u.role, u.isConvertedDependent) == UserBadge && !ShowsVaccineActions(u)
  {
  }
}
