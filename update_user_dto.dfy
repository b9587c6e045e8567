/** The zod schema of the user-update body: every field optional, the same password rules restated. */
module UpdateUserDto {
  import opened Common
  import CreateUserDto

  /** The password chain as the update schema writes it out again. */
  predicate UpdatePasswordRules(p: string) {
    && 8 <= CreateUserDto.Utf16Length(p)
    && CreateUserDto.Utf16Length(p) <= 100
    && (exists i | 0 <= i < |p| :: 'A' <= p[i] <= 'Z')
    && (exists i | 0 <= i < |p| :: 'a' <= p[i] <= 'z')
    && (exists i | 0 <= i < |p| :: '0' <= p[i] <= '9')
  }

  /** Every field optional; the same six server-side fields as on create are omitted. */
  datatype UpdateUserInput = UpdateUserInput(
    name: Option<string>,
    username: Option<string>,
    email: Option<string>,
    password: Option<string>)

  predicate ValidUpdate(i: UpdateUserInput) {
    i.password.Some? ==> UpdatePasswordRules(i.password.value)
  }

  /** The update rules are exactly the create rules. */
  lemma SameRulesAsCreate(p: string)
    ensures UpdatePasswordRules(p) <==> CreateUserDto.ValidPassword(p)
  {
  }

  /** A body without a password is accepted, whatever else it leaves out. */
  lemma AbsentPasswordAccepted(i: UpdateUserInput)
    requires i.password.None?
    ensures ValidUpdate(i)
  {
  }

  lemma PresentPasswordChecked(i: UpdateUserInput)
    requires i.password.Some?
    ensures ValidUpdate(i) <==> CreateUserDto.ValidPassword(i.password.value)
  {
  }
}
