/** The sample consumer `UserService`: validate a user record, map it to an entity, save it
    through a repository and map the saved entity back, as one `flatMap`/`map` chain over
    version 3 handlers. */
module UserServiceV4 {
  import opened JavaLang
  import opened RopV3

  /** The record `UserDTO(name, email)` (its email accessor is spelled `emai()`). */
  datatype UserDTO = UserDTO(name: Option<string>, email: Option<string>)

  /** The record `User(id, name, email)`; `id` is a `Long`. */
  datatype User = User(id: Option<int>, name: Option<string>, email: Option<string>)

  /** `UserRepository.save(user)`, which may throw. */
  type UserRepository = Option<User> -> Call<Option<User>>

  /** Java's `s + t` for a string `s` that may be null: null is written as "null". */
  function Concat(s: Option<string>, t: string): string
  {
    (match s case None => "null" case Some(x) => x) + t
  }

  /** The anonymous repository the constructor installs: id 1, same name, email with "SAVE"
      appended. `user.name()` on a null user throws. */
  function MockSave(user: Option<User>): Call<Option<User>>
  {
    match user
    case None => Threw(NullPointer)
    case Some(u) => Returned(Some(User(Some(1), u.name, Some(Concat(u.email, "SAVE")))))
  }

  const NameError: Throwable := IllegalArgument("Name cannot be null or empty")
  const EmailError: Throwable := IllegalArgument("Invalid email address")

  /** The name is neither null nor empty. */
  predicate ValidName(d: UserDTO)
  {
    d.name.Some? && d.name.value != ""
  }

  /** The email is not null and contains "@". */
  predicate ValidEmail(d: UserDTO)
  {
    d.email.Some? && '@' in d.email.value
  }

  /** Step 1, `validateDTO`: the name is checked before the email. Reading a field of a null
      record throws. */
  function ValidateDTO(dto: Option<UserDTO>): Call<Outcome<UserDTO>>
  {
    match dto
    case None => Threw(NullPointer)
    case Some(d) =>
      if !ValidName(d) then Returned(Failure(Some(NameError)))
      else if !ValidEmail(d) then Returned(Failure(Some(EmailError)))
      else Returned(Success(dto))
  }

  /** Step 2, `mapToEntity`: a user with a null id. Its own `catch` turns the exception a null
      record raises into a failure. */
  function MapToEntity(dto: Option<UserDTO>): Call<Outcome<User>>
  {
    match dto
    case None => Returned(Failure(Some(NullPointer)))
    case Some(d) => Returned(Success(Some(User(None, d.name, d.email))))
  }

  /** Step 4, `mapToDTO`: the id is dropped. Reading a field of a null user throws. */
  function MapToDTO(user: Option<User>): Call<Option<UserDTO>>
  {
    match user
    case None => Threw(NullPointer)
    case Some(u) => Returned(Some(UserDTO(u.name, u.email)))
  }

  /** The service and the repository its constructor installs. */
  datatype UserService = UserService(userRepository: UserRepository)
  {
    /** Step 3, `saveEntity`: its own `catch` turns what `save` throws into a failure. */
    function SaveEntity(user: Option<User>): Call<Outcome<User>>
    {
      match userRepository(user)
      case Returned(saved) => Returned(Success(saved))
      case Threw(e) => Returned(Failure(Some(e)))
    }

    /** `createUser(userDTO)`: `success(userDTO)` chained through the four steps. */
    function CreateUser(dto: Option<UserDTO>): Outcome<UserDTO>
    {
      Success(dto)
        .FlatMap(ValidateDTO)
        .FlatMap(MapToEntity)
        .FlatMap(u => SaveEntity(u))
        .Map(MapToDTO)
    }
  }

  /** `new UserService()` */
  function NewUserService(): UserService
  {
    UserService(MockSave)
  }

  /** Validation: a bad name is reported whatever the email; with a good name a bad email is
      reported; a valid record passes unchanged, and only a valid one does. */
  lemma ValidateOutcomes(d: UserDTO)
    ensures !ValidName(d) ==> ValidateDTO(Some(d)) == Returned(Failure(Some(NameError)))
    ensures ValidName(d) && !ValidEmail(d) ==> ValidateDTO(Some(d)) == Returned(Failure(Some(EmailError)))
    ensures ValidateDTO(Some(d)) == Returned(Success(Some(d))) <==> ValidName(d) && ValidEmail(d)
  {
  }

  /** On a valid record `createUser` asks the repository to save the entity with a null id;
      what `save` throws becomes the failure, and the saved user comes back without its id. */
  lemma CreateUserSaves(s: UserService, d: UserDTO)
    requires ValidName(d) && ValidEmail(d)
    ensures s.CreateUser(Some(d)) ==
              match s.userRepository(Some(User(None, d.name, d.email)))
              case Threw(e) => Failure(Some(e))
              case Returned(None) => Failure(Some(NullPointer))
              case Returned(Some(u)) => Success(Some(UserDTO(u.name, u.email)))
  {
  }

  /** `mapToEntity` gives a user with a null id; the mock `save` gives it id 1, keeps the name
      and appends "SAVE" to the email (a null email is written as "null"). */
  lemma MappedEntityIsSaved(d: UserDTO)
    ensures MapToEntity(Some(d)) == Returned(Success(Some(User(None, d.name, d.email))))
    ensures var saved := NewUserService().SaveEntity(Some(User(None, d.name, d.email)));
              saved.Returned? && saved.result.IsSuccess() && saved.result.value.Some? &&
              saved.result.value.value.id == Some(1) && saved.result.value.value.name == d.name &&
              saved.result.value.value.email ==
                Some(if d.email.Some? then d.email.value + "SAVE" else "nullSAVE")
  {
    assert "null" + "SAVE" == "nullSAVE";
  }

  /** With the mock repository a valid record comes back with the same name and "SAVE"
      appended to its email. */
  lemma CreateUserWithMock(name: string, email: string)
    requires name != "" && '@' in email
    ensures NewUserService().CreateUser(Some(UserDTO(Some(name), Some(email)))) ==
              Success(Some(UserDTO(Some(name), Some(email + "SAVE"))))
  {
    CreateUserSaves(NewUserService(), UserDTO(Some(name), Some(email)));
  }

  /** On an invalid record `createUser` returns the validation failure whatever the repository
      does: the later steps are never reached. */
  lemma CreateUserRejects(s: UserService, d: UserDTO)
    requires !(ValidName(d) && ValidEmail(d))
    ensures s.CreateUser(Some(d)) == Failure(Some(if !ValidName(d) then NameError else EmailError))
  {
  }

  /** A null record: `validateDTO` throws, and `flatMap` turns that into a failure. */
  lemma CreateUserNull(s: UserService)
    ensures s.CreateUser(None) == Failure(Some(NullPointer))
  {
  }
}
