# User accounts: repository, service and request handlers

This project models the user-account component of an Express/Mongoose API.
It has three layers over one user collection.

- **Repository** (`users-repository.js`) runs the Mongoose queries and writes: `find`, `findById`, `findOne({email})`, `create`, `updateOne` with `$set`, and `deleteOne`.
- **Service** (`users-service.js`) wraps the repository in guarded operations. They answer with sanitized `{id, name, email}` views, `true`, or `null`. They store the hash of a password, never the plaintext.
- **Controller** (`users-controller.js`) holds one handler per route. Each lower-cases the e-mail where it takes one, runs its guards in a fixed order, and ends in one response: an error kind with its message, or a success body.

The collection is the class `UsersRepository.UserStore`. It holds a map from id to `User(name, email, password)`. It also holds the collection's natural order (the order `find` returns documents in) and a counter that stands for the generator of fresh ids. `Valid()` says that the order lists every stored id exactly once and that every stored id is below the counter, so ids are never reused.

Each write takes a `storeFails` flag. The flag stands for the store throwing, and a failed write changes nothing. The password hasher (`hashPassword`, `passwordMatched`) is foreign code. It is passed in as a `Hasher` value holding two functions, and nothing is assumed about them. A caller may pass a different hasher to every call, which covers the random salt of each hash. Service `null` is modelled as `false`.

Properties proved:

- **Frames.** Every write states the whole new collection. `updateUser` changes only `name` and `email` of one record. `updatePassword` changes only `password`. `deleteUser` removes only that id. A failed guard or an unknown id changes nothing.
- **Sanitization.** `View` and the response bodies have no password field. Every view carries the id, name and e-mail of the user it was made from.
- **Error precedence.** In `createUser`, a taken e-mail wins over a mismatched confirmation. In `updateUser`, a taken e-mail wins over an unknown id, and the user's own current e-mail counts as taken. In `updatePassword`, an unknown id or a wrong old password answers "Invalid Old Password" before the confirmation is compared.
- **Invariants of the handlers.** Each handler keeps "no two users share an e-mail" and "every stored e-mail is lower-case".

The model follows the code's guard order, not an order one might expect:

- Create checks the e-mail before the confirmation.
- Update checks the e-mail before the id, and does not exclude the user's own record.
- An unknown id in a password change is reported as an invalid old password, not as a missing user.
- A successful create answers `{name, email}`, not the new id.

## Model

| member | source | states |
|---|---|---|
| `UserModel.Lower` | src/api/components/users/users-controller.js:52 | the normalised e-mail has the same length, each ASCII capital becomes its small letter and everything else is kept; the result has no capitals and an already lower-case string is unchanged |
| `UserModel.LowerIdempotent` | src/api/components/users/users-controller.js:102 | normalising an e-mail twice gives the same as normalising it once |
| `UserModel.InsertKeepsEmailsUnique` | src/api/components/users/users-controller.js:55-76 | inserting a user under a fresh id keeps e-mails unique exactly when the new e-mail is not taken |
| `UserModel.SetEmailKeepsEmailsUnique` | src/api/components/users/users-controller.js:103-112 | giving an existing user an e-mail nobody holds keeps e-mails unique |
| `UsersRepository.UserStore.GetUsers` | src/api/components/users/users-repository.js:8-10 | every stored record appears, once each, in collection order, with its own fields, and nothing else appears |
| `UsersRepository.UserStore.GetUser` | src/api/components/users/users-repository.js:17-19 | the record with that id when one exists, nothing otherwise |
| `UsersRepository.UserStore.GetUserEmail` | src/api/components/users/users-repository.js:26-28 | a stored record whose e-mail equals the argument exactly; nothing exactly when no stored e-mail equals it |
| `UsersRepository.UserStore.CreateUser` | src/api/components/users/users-repository.js:58-64 | on success one record with the given name, e-mail and password is added under an id at or above the id counter, which then moves past it, so the id was never handed out before; the id is appended to the order and the other records are unchanged; a store failure writes nothing |
| `UsersRepository.UserStore.UpdateUser` | src/api/components/users/users-repository.js:73-85 | sets name and e-mail of the record with that id, keeps its password and every other record; a missing id or a store failure changes nothing |
| `UsersRepository.UserStore.UpdatePassword` | src/api/components/users/users-repository.js:93-104 | sets only the password of the record with that id, keeps its name and e-mail and every other record; a missing id or a store failure changes nothing |
| `UsersRepository.UserStore.DeleteUser` | src/api/components/users/users-repository.js:111-113 | removes only the record with that id from the map and the order; a no-op when it is absent |
| `UsersService.GetUsers` | src/api/components/users/users-service.js:8-22 | one `{id, name, email}` view per stored user, in collection order, each the projection of that user, and every user is represented |
| `UsersService.GetUser` | src/api/components/users/users-service.js:29-42 | null exactly for an unknown id, otherwise the id, name and e-mail of that user |
| `UsersService.GetCheckEmail` | src/api/components/users/users-service.js:49-58 | true exactly when no stored user has an e-mail equal to the argument, without case folding |
| `UsersService.GetCheckPasswordOld` | src/api/components/users/users-service.js:65-81 | false for an unknown id, otherwise whether the hasher matches the old password against the stored hash |
| `UsersService.CreateUser` | src/api/components/users/users-service.js:90-101 | true and one new record holding the hash of the password under an id never handed out before when the insert succeeds; null and no change when it fails |
| `UsersService.UpdateUser` | src/api/components/users/users-service.js:110-125 | null and no change for an unknown id or a failed write; otherwise only that user's name and e-mail change |
| `UsersService.UpdatePassword` | src/api/components/users/users-service.js:133-148 | null and no change for an unknown id although a hash was computed, or for a failed write; otherwise only that user's password becomes the hash of the new password |
| `UsersService.DeleteUser` | src/api/components/users/users-service.js:155-170 | null for an unknown id or a failed delete, with map and order unchanged; otherwise exactly that user is removed from the map and the order, the others keep their order, and a later lookup of the id finds nothing |
| `UsersController.GetUsers` | src/api/components/users/users-controller.js:11-18 | a success carrying the sanitized view of every stored user in collection order |
| `UsersController.GetUser` | src/api/components/users/users-controller.js:27-39 | `UNPROCESSABLE_ENTITY` "Unknown user" for an unknown id, otherwise the view of that user |
| `UsersController.CreateUser` | src/api/components/users/users-controller.js:48-88 | a taken lower-cased e-mail gives `EMAIL_ALREADY_TAKEN` whatever the confirmation; then a mismatch gives `INVALID_PASSWORD` "Invalid Confirm Password"; then a failed insert gives `UNPROCESSABLE_ENTITY`; every failure leaves the collection unchanged; success stores the lower-cased e-mail with the hashed password and answers `{name, email}`; unique and lower-case e-mails are preserved |
| `UsersController.UpdateUser` | src/api/components/users/users-controller.js:97-124 | any stored e-mail, the user's own included, gives `EMAIL_ALREADY_TAKEN` before an unknown id or failed write gives `UNPROCESSABLE_ENTITY` "Failed to update user"; success changes only that user's name and lower-cased e-mail and answers `{id}`; unique and lower-case e-mails are preserved |
| `UsersController.UpdatePassword` | src/api/components/users/users-controller.js:133-169 | an unknown id or a wrong old password gives "Invalid Old Password" before the confirmation is compared; then a mismatch gives "Invalid Confirm Password", then a failed write gives `WRONG_RESET_PASSWORD_TOKEN`; no failure changes the collection; success sets only that user's password to the new hash and answers `{id, message: 'Password Success Change'}`; unique and lower-case e-mails are preserved |
| `UsersController.DeleteUser` | src/api/components/users/users-controller.js:178-194 | an unknown id or a failed delete gives `UNPROCESSABLE_ENTITY` "Failed to delete user" and no change to map or order; success removes exactly that user from the map and the order and answers `{id}`; unique and lower-case e-mails are preserved |
| `UsersScenarios.SignUpAnn` | src/api/components/users/users-controller.js:50-84 | signing up with "ANN@EX.COM" on an empty collection stores exactly one user, with e-mail "ann@ex.com" and the hash of the password |
| `UsersScenarios.SignUpNormalisesEmail` | src/api/components/users/users-controller.js:52-84 | the sign-up response is `{name: "Ann", email: "ann@ex.com"}` and the stored record holds the lower-cased e-mail and the hash |
| `UsersScenarios.SecondSignUpSameEmail` | src/api/components/users/users-controller.js:55-69 | a second sign-up with the same e-mail in other letter case and a mismatched confirmation gets `EMAIL_ALREADY_TAKEN` and adds nothing |
| `UsersScenarios.RenameKeepingEmail` | src/api/components/users/users-controller.js:103-110 | renaming a user while resubmitting the same e-mail gets `EMAIL_ALREADY_TAKEN` and changes nothing |
| `UsersScenarios.WrongOldPassword` | src/api/components/users/users-controller.js:139-146 | a wrong old password gets "Invalid Old Password" even with a mismatched confirmation, and the stored hash stays |
| `UsersScenarios.UnknownIdPassword` | src/api/components/users/users-service.js:65-81 | a password change for an unknown id gets "Invalid Old Password" |
| `UsersScenarios.MismatchedNewPassword` | src/api/components/users/users-controller.js:148-153 | with a matching old password, a mismatched confirmation gets "Invalid Confirm Password" and the stored hash stays |
| `UsersScenarios.DeletedIdNotReused` | src/api/components/users/users-repository.js:58-64 | after a user is deleted, the same e-mail can sign up again and the new record gets a different id |
| `UsersScenarios.DeleteThenGet` | src/api/components/users/users-controller.js:180-190 | after a successful delete, fetching the id gets "Unknown user" and deleting it again gets "Failed to delete user" |

## Left out

- Express plumbing is not modelled: request, response and `next`, HTTP status codes, and the inside of `errorResponder`/`errorTypes`. A response is a datatype holding either an error kind with its message or a success body.
- Exceptions thrown by reads (`find`, `findById`, `findOne`) and by hashing are not modelled. They pass unchanged to the Express error handler. Only write failures are modelled, through the `storeFails` flag.
- Ids are natural numbers. A malformed id string, which Mongoose rejects with a cast error, is not modelled.
- bcrypt is represented only by the `Hasher` parameter. No verify-after-hash round trip is assumed, because no code in the component promises one. Two scenarios state their assumption about the hasher in their `requires`.
- The Mongoose schema is not part of this model, so no store-level uniqueness constraint is assumed. E-mail uniqueness comes only from the handlers' checks.
- The natural order of the collection is modelled as insertion order.
- `checkOldPassword` in the repository is not modelled. It uses an undefined `bcrypt`, queries `id` rather than `_id`, and nothing calls it.
- The `console.log` in `getCheckPasswordOld` is not modelled. It is a logging side effect.
- async/await is not modelled. Each handler runs as one atomic step, so the check-then-write races in create and update do not arise.
- `toLowerCase` is modelled on ASCII letters only. Locale-specific and non-ASCII case mapping is not modelled.
- The joi length bounds in `users-validator.js` are not modelled. No guard depends on them.
- The controller passes `password_confirm` to the service's `createUser` as a fourth argument. The service ignores it, so the model's service operation takes three.
