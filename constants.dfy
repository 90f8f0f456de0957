/**
 * The fixed strings of constants.py: the key under which the API key is kept in
 * a user's data bag and the predefined replies.
 *
 * bot.py:20 reads `TELEGRAM_BOT_DB_ENCRYPTION_KEY_ENV`, which constants.py does
 * not define; the model takes the encryption key as a constructor parameter.
 */
module Constants {

  /** Key of the API key entry in a user's data bag. */
  const ApiKeyField: string := "api_key"

  const SomethingWentWrongMessage: string := "Something went wrong."

  /** Written as three literals only so that the verifier can look at single characters of it. */
  const ApiKeyRequestMessage: string :=
    "Please set your OpenAI API key " + "with /apikey YOUR_API_KEY command " + "in order to use bot functionality."

  const WelcomeNewUserMessage: string := "Welcome to the ChatGPT Telegram bot! " + ApiKeyRequestMessage

  /** Reply to a successful `/apikey` (a literal in bot.py). */
  const ApiKeySetMessage: string := "API key set successfully!"

  /** Prefix of the echo reply to plain text (a literal in bot.py). */
  const EchoPrefix: string := "You entered: "

}
